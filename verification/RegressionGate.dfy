/** The conformance regression gate and its compact baseline
    (scripts/mcp_conformance/run_codex_compliance.py).

    A report is given as parsed JSON in which each field that the reader tests
    has either a usable value or is marked unusable.  The result lists are
    sorted by identity in the source, so they are sets here; errors are a set
    as well. */
module RegressionGate {
  import opened Text

  datatype Mode = Shipping | Intermediate | Modern

  datatype Transport = Stdio | OfficialHttp

  datatype Source = Official | Harness | Supplemental

  datatype Status = Pass | Fail | Skip

  const MODES := [Shipping, Intermediate, Modern]

  const TRANSPORTS := [Stdio, OfficialHttp]

  function TransportName(t: Transport): string {
    if t.Stdio? then "stdio" else "official-http"
  }

  datatype Identity = Identity(mode: Mode, transport: Transport, source: Source, scenario: string, checkId: string)

  // ------------------------------------------------------------------ reports

  datatype Field = Absent | Given(value: string) | Unusable

  datatype RawCheck =
    | NotACheck
    | RawCheck(source: Option<Source>, scenario: Field, name: Field, checkId: Field,
               status: Option<Status>, success: Option<bool>)

  datatype RawCase =
    | NotACase
    | RawCase(mode: Option<Mode>, transport: Option<string>, checks: Option<seq<RawCheck>>)

  datatype RawIdentity =
    | NotAnIdentity
    | RawIdentity(mode: Option<Mode>, transport: Option<Transport>, source: Option<Source>,
                  scenario: Option<string>, checkId: Option<string>)

  datatype OfficialRun = OfficialRun(
    repository: string, gitRef: string, authenticationIncluded: bool, scenarios: Option<map<Mode, seq<string>>>)

  datatype Buckets = Buckets(passing: Option<seq<RawIdentity>>, failing: Option<seq<RawIdentity>>)

  datatype Body =
    | Full(cases: Option<seq<RawCase>>)
    | Compact(kind: string, modes: seq<Mode>, transports: Option<seq<string>>, buckets: Option<Buckets>)

  datatype Report = Report(
    schemaVersion: int,
    versionCheck: bool,
    modernFeature: bool,
    official: Option<OfficialRun>,
    automaticAuth: Option<bool>,
    body: Body)

  const REPORT_SCHEMA_VERSION := 4
  const COMPACT_REGRESSION_BASELINE_KIND := "mcp-conformance-regression-baseline-v1"
  const OFFICIAL_CONFORMANCE_REPOSITORY := "modelcontextprotocol/conformance"
  const OFFICIAL_CONFORMANCE_GIT_REF := "49103de6ed70804e940637bf3e9e29e4a3f54e64"

  /** `scenarios_for_mode` with authentication. */
  type Catalog = Mode -> seq<string>

  datatype Issue =
    | WrongSchema | NoVersionCheck | NoModernFeature
    | NoOfficialRun | WrongRepository | WrongRevision | NoAuthentication | NoCatalog
    | WrongBaselineKind | WrongModes | WrongTransports | NoIdentities
    | NoBucket(status: Status) | MalformedIdentity(status: Status) | DuplicateIdentity(status: Status)
    | NoCases | MalformedCase | MalformedRequiredCase | DuplicateCase(mode: Mode, name: string)
    | WrongScenarios(mode: Mode) | MissingCase(mode: Mode, transport: Transport)
    | NoChecks(mode: Mode, transport: Transport) | MalformedCheck(mode: Mode, transport: Transport)
    | NotObserved(mode: Mode, scenarios: set<string>) | Unexpected(mode: Mode, scenarios: set<string>)
    | NoAuthPolicy | OtherAuthPolicy | ShippingFails(checkId: string) | BaselineShippingFails(checkId: string)

  // --------------------------------------------------------------- identities

  predicate AllDigits(s: string) {
    s != "" && forall i | 0 <= i < |s| :: IsDigit(s[i])
  }

  /** Drops the number of a repeated observation, as in `name#2`. */
  function StableName(name: string): (r: string)
    ensures name != "" ==> r != ""
  {
    var at := FindLast(name, '#');
    if at.Some? && at.value > 0 && AllDigits(name[at.value + 1..]) then name[..at.value] else name
  }

  lemma RepeatedObservationsAgree(stem: string, m: nat, n: nat)
    requires stem != ""
    ensures StableName(stem + "#" + Decimal(m)) == StableName(stem + "#" + Decimal(n)) == stem
  {
    NumberIsDropped(stem, m);
    NumberIsDropped(stem, n);
  }

  lemma NumberIsDropped(stem: string, n: nat)
    requires stem != ""
    ensures StableName(stem + "#" + Decimal(n)) == stem
  {
    var name := stem + "#" + Decimal(n);
    assert name[|stem| + 1..] == Decimal(n) && name[..|stem|] == stem;
    FindLastIsUnique(name, '#', |stem|);
  }

  predicate IsUsable(f: Field) {
    f.Absent? || (f.Given? && f.value != "")
  }

  /** `_regression_check_identity`. */
  function CheckIdentity(m: Mode, t: Transport, c: RawCheck): (r: Option<Identity>)
    ensures r.Some? ==> r.value.mode == m && r.value.transport == t && r.value.checkId != ""
  {
    if c.NotACheck? || c.source.None? || !c.name.Given? || c.name.value == "" then None
    else if !IsUsable(c.scenario) || !IsUsable(c.checkId) then None
    else
      Some(Identity(m, t, c.source.value,
                    if c.scenario.Given? then c.scenario.value else "",
                    if c.checkId.Given? then c.checkId.value else StableName(c.name.value)))
  }

  // -------------------------------------------------------------- full reports

  type Checks = map<Identity, set<Status>>

  /** What a report says: the statuses of each check, and what is wrong with it. */
  datatype Reading = Reading(checks: Checks, issues: set<Issue>)

  function AddStatus(checks: Checks, id: Identity, status: Status): Checks {
    checks[id := (if id in checks then checks[id] else {}) + {status}]
  }

  /** The identity of a check whose status agrees with its success flag. */
  function ReadCheck(m: Mode, t: Transport, c: RawCheck): (r: Option<Identity>)
    ensures r.Some? ==> r.value.mode == m && r.value.transport == t && r.value.checkId != ""
    ensures r.Some? ==> c.RawCheck? && c.status.Some?
  {
    var id := CheckIdentity(m, t, c);
    if id.None? || c.status.None? || c.success.None? || c.success.value != !c.status.value.Fail? then None else id
  }

  function ReadChecks(m: Mode, t: Transport, checks: seq<RawCheck>): Reading {
    if checks == [] then Reading(map[], {})
    else
      var r, c := ReadChecks(m, t, checks[..|checks| - 1]), checks[|checks| - 1];
      var id := ReadCheck(m, t, c);
      if id.None? then Reading(r.checks, r.issues + {MalformedCheck(m, t)})
      else Reading(AddStatus(r.checks, id.value, c.status.value), r.issues)
  }

  /** The scenarios the official or harness checks of a mode observed over HTTP. */
  function Observed(checks: Checks, m: Mode): set<string> {
    set id | id in checks && id.mode == m && id.transport == OfficialHttp && !id.source.Supplemental? :: id.scenario
  }

  function Expected(catalog: Catalog, m: Mode): set<string> {
    set s | s in catalog(m)
  }

  function ScenarioIssues(catalog: Catalog, m: Mode, observed: set<string>): (r: set<Issue>)
    ensures r == {} <==> observed == Expected(catalog, m)
  {
    var missing, unexpected := Expected(catalog, m) - observed, observed - Expected(catalog, m);
    (if missing != {} then {NotObserved(m, missing)} else {})
    + (if unexpected != {} then {Unexpected(m, unexpected)} else {})
  }

  type CaseTable = map<(Mode, string), Option<seq<RawCheck>>>

  /** The first case for each mode and transport. */
  function ReadCases(cases: seq<RawCase>): (CaseTable, set<Issue>) {
    if cases == [] then (map[], {})
    else
      var (table, issues) := ReadCases(cases[..|cases| - 1]);
      var c := cases[|cases| - 1];
      if c.NotACase? then (table, issues + {MalformedCase})
      else if c.mode.None? then (table, issues)
      else if c.transport.None? then (table, issues + {MalformedRequiredCase})
      else
        var key := (c.mode.value, c.transport.value);
        if key in table then (table, issues + {DuplicateCase(key.0, key.1)})
        else (table[key := c.checks], issues)
  }

  function ReadCase(catalog: Catalog, table: CaseTable, m: Mode, t: Transport): Reading {
    var key := (m, TransportName(t));
    if key !in table then Reading(map[], {MissingCase(m, t)})
    else if table[key].None? || table[key].value == [] then Reading(map[], {NoChecks(m, t)})
    else
      var r := ReadChecks(m, t, table[key].value);
      if t.OfficialHttp? then Reading(r.checks, r.issues + ScenarioIssues(catalog, m, Observed(r.checks, m)))
      else r
  }

  function ReadMode(catalog: Catalog, selected: map<Mode, seq<string>>, table: CaseTable, m: Mode): Reading {
    var s, h := ReadCase(catalog, table, m, Stdio), ReadCase(catalog, table, m, OfficialHttp);
    Reading(s.checks + h.checks, ScenarioListIssues(catalog, selected, m) + s.issues + h.issues)
  }

  function ScenarioListIssues(catalog: Catalog, selected: map<Mode, seq<string>>, m: Mode): set<Issue> {
    if m !in selected || selected[m] != catalog(m) then {WrongScenarios(m)} else {}
  }

  function ReadModes(catalog: Catalog, selected: map<Mode, seq<string>>, table: CaseTable, modes: seq<Mode>): Reading {
    if modes == [] then Reading(map[], {})
    else
      var r := ReadModes(catalog, selected, table, modes[..|modes| - 1]);
      var last := ReadMode(catalog, selected, table, modes[|modes| - 1]);
      Reading(r.checks + last.checks, r.issues + last.issues)
  }

  function ReadFull(catalog: Catalog, selected: map<Mode, seq<string>>, cases: Option<seq<RawCase>>): Reading {
    var (table, issues) := if cases.Some? then ReadCases(cases.value) else (map[], {NoCases});
    var r := ReadModes(catalog, selected, table, MODES);
    Reading(r.checks, issues + r.issues)
  }

  // --------------------------------------------------------- compact baselines

  function ReadIdentity(r: RawIdentity): Option<Identity> {
    if r.NotAnIdentity? || r.mode.None? || r.transport.None? || r.source.None? || r.scenario.None?
       || r.checkId.None? || r.checkId.value == ""
    then None
    else Some(Identity(r.mode.value, r.transport.value, r.source.value, r.scenario.value, r.checkId.value))
  }

  function ReadIdentities(status: Status, records: seq<RawIdentity>): (set<Identity>, set<Issue>) {
    if records == [] then ({}, {})
    else
      var (seen, issues) := ReadIdentities(status, records[..|records| - 1]);
      var id := ReadIdentity(records[|records| - 1]);
      if id.None? then (seen, issues + {MalformedIdentity(status)})
      else if id.value in seen then (seen, issues + {DuplicateIdentity(status)})
      else (seen + {id.value}, issues)
  }

  function ReadBucket(status: Status, records: Option<seq<RawIdentity>>): (set<Identity>, set<Issue>) {
    if records.Some? then ReadIdentities(status, records.value) else ({}, {NoBucket(status)})
  }

  function BucketChecks(passing: set<Identity>, failing: set<Identity>): Checks {
    map id | id in passing + failing ::
      (if id in passing then {Pass} else {}) + (if id in failing then {Fail} else {})
  }

  predicate HasCase(checks: Checks, m: Mode, t: Transport) {
    exists id :: id in checks && id.mode == m && id.transport == t
  }

  function CoverageIssues(catalog: Catalog, selected: map<Mode, seq<string>>, checks: Checks, m: Mode): set<Issue> {
    ScenarioListIssues(catalog, selected, m)
    + (if HasCase(checks, m, Stdio) then {} else {MissingCase(m, Stdio)})
    + (if HasCase(checks, m, OfficialHttp) then {} else {MissingCase(m, OfficialHttp)})
    + ScenarioIssues(catalog, m, Observed(checks, m))
  }

  function AllCoverageIssues(catalog: Catalog, selected: map<Mode, seq<string>>, checks: Checks): set<Issue> {
    CoverageIssues(catalog, selected, checks, Shipping)
    + CoverageIssues(catalog, selected, checks, Intermediate)
    + CoverageIssues(catalog, selected, checks, Modern)
  }

  predicate AreBothTransports(transports: seq<string>) {
    |transports| == 2 && (set t | t in transports) == {"stdio", "official-http"}
  }

  function ReadCompact(catalog: Catalog, selected: map<Mode, seq<string>>, body: Body): Reading
    requires body.Compact?
  {
    if body.kind != COMPACT_REGRESSION_BASELINE_KIND then Reading(map[], {WrongBaselineKind})
    else
      var issues :=
        (if body.modes == MODES then {} else {WrongModes})
        + (if body.transports.Some? && AreBothTransports(body.transports.value) then {} else {WrongTransports});
      if body.buckets.None? then Reading(map[], issues + {NoIdentities})
      else
        var (passing, pi) := ReadBucket(Pass, body.buckets.value.passing);
        var (failing, fi) := ReadBucket(Fail, body.buckets.value.failing);
        var checks := BucketChecks(passing, failing);
        Reading(checks, issues + pi + fi + AllCoverageIssues(catalog, selected, checks))
  }

  function HeaderIssues(r: Report): set<Issue> {
    (if r.schemaVersion == REPORT_SCHEMA_VERSION then {} else {WrongSchema})
    + (if r.versionCheck then {} else {NoVersionCheck})
    + (if r.modernFeature then {} else {NoModernFeature})
    + if r.official.None? then {NoOfficialRun}
      else
        var o := r.official.value;
        (if o.repository == OFFICIAL_CONFORMANCE_REPOSITORY then {} else {WrongRepository})
        + (if o.gitRef == OFFICIAL_CONFORMANCE_GIT_REF then {} else {WrongRevision})
        + (if o.authenticationIncluded then {} else {NoAuthentication})
        + (if o.scenarios.Some? then {} else {NoCatalog})
  }

  function Selected(r: Report): map<Mode, seq<string>> {
    if r.official.Some? && r.official.value.scenarios.Some? then r.official.value.scenarios.value else map[]
  }

  /** `_required_regression_checks`. */
  function Read(catalog: Catalog, r: Report): Reading {
    var body := match r.body
      case Full(cases) => ReadFull(catalog, Selected(r), cases)
      case Compact(_, _, _, _) => ReadCompact(catalog, Selected(r), r.body);
    Reading(body.checks, HeaderIssues(r) + body.issues)
  }

  // --------------------------------------------------------------------- gate

  datatype Gate = Gate(
    baselineIssues: set<Issue>,
    candidateIssues: set<Issue>,
    gateIssues: set<Issue>,
    newFailures: set<Identity>,
    missingChecks: set<Identity>,
    knownFailures: set<Identity>,
    fixedChecks: set<Identity>)
  {
    predicate Success() {
      baselineIssues == {} && candidateIssues == {} && gateIssues == {} && newFailures == {} && missingChecks == {}
    }
  }

  predicate Says(checks: Checks, id: Identity, status: Status) {
    id in checks && status in checks[id]
  }

  function AuthIssues(candidate: Report, baseline: Report): set<Issue> {
    if baseline.automaticAuth.None? || candidate.automaticAuth.None? then {NoAuthPolicy}
    else if baseline.automaticAuth != candidate.automaticAuth then {OtherAuthPolicy}
    else {}
  }

  function ShippingIssues(candidate: Checks, baseline: Checks): set<Issue> {
    (set id | id in candidate && id.mode.Shipping? && Says(candidate, id, Fail) :: ShippingFails(id.checkId))
    + (set id | id in baseline && id.mode.Shipping? && Says(baseline, id, Fail) :: BaselineShippingFails(id.checkId))
  }

  predicate IsMissing(candidate: Checks, baseline: Checks, id: Identity) {
    || (Says(baseline, id, Pass) && !Says(candidate, id, Pass))
    || (Says(baseline, id, Fail) && !Says(candidate, id, Fail) && !Says(candidate, id, Pass))
  }

  /** `_evaluate_regression_gate`. */
  function Evaluate(catalog: Catalog, candidate: Report, baseline: Report): Gate {
    var b, c := Read(catalog, baseline), Read(catalog, candidate);
    Gate(b.issues, c.issues, AuthIssues(candidate, baseline) + ShippingIssues(c.checks, b.checks),
         set id | id in c.checks && Says(c.checks, id, Fail) && !Says(b.checks, id, Fail),
         set id | id in b.checks && IsMissing(c.checks, b.checks, id),
         set id | id in c.checks && Says(c.checks, id, Fail) && Says(b.checks, id, Fail),
         set id | id in b.checks && !IsMissing(c.checks, b.checks, id) && Says(b.checks, id, Fail)
                  && !Says(c.checks, id, Fail))
  }
}

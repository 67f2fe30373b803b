/** When the conformance gate finds nothing wrong with a report, which results it
    then takes from it, and what the gate makes of them
    (scripts/mcp_conformance/run_codex_compliance.py). */
module RegressionReports {
  import opened Text
  import opened RegressionGate
  import opened RegressionGateLaws

  // ------------------------------------------------------------------- checks

  /** `name` is a repeated observation of `stem`, as in `name#2`. */
  predicate IsNumbered(name: string, stem: string, number: string) {
    && stem != "" && number != "" && (forall i | 0 <= i < |number| :: IsDigit(number[i]))
    && name == stem + "#" + number
  }

  /** The name without the number of a repeated observation. */
  ghost predicate IsStable(name: string, stem: string) {
    if exists s, number :: IsNumbered(name, s, number) then exists number :: IsNumbered(name, stem, number)
    else stem == name
  }

  predicate IsOptional(f: Field) {
    f.Absent? || (f.Given? && f.value != "")
  }

  /** A check with a source, a name, a status and a success flag that agrees. */
  predicate IsCheck(c: RawCheck) {
    && c.RawCheck? && c.source.Some? && c.name.Given? && c.name.value != ""
    && IsOptional(c.scenario) && IsOptional(c.checkId)
    && c.status.Some? && c.success == Some(c.status != Some(Fail))
  }

  /** The check is this one of this mode and transport, with this status. */
  ghost predicate IsResult(m: Mode, t: Transport, c: RawCheck, id: Identity, status: Status) {
    && IsCheck(c) && id.mode == m && id.transport == t && c.source == Some(id.source)
    && id.scenario == (if c.scenario.Given? then c.scenario.value else "")
    && (if c.checkId.Given? then id.checkId == c.checkId.value else IsStable(c.name.value, id.checkId))
    && c.status == Some(status)
  }

  ghost predicate ChecksShow(m: Mode, t: Transport, raw: seq<RawCheck>, id: Identity, status: Status) {
    exists c :: c in raw && IsResult(m, t, c, id, status)
  }

  lemma NumberedIff(name: string, stem: string, number: string)
    requires IsNumbered(name, stem, number)
    ensures StableName(name) == stem
  {
    assert name[|stem|] == '#' && name[|stem| + 1..] == number && name[..|stem|] == stem;
    assert !IsDigit('#');
    FindLastIsUnique(name, '#', |stem|);
  }

  lemma StableIff(name: string, stem: string)
    ensures IsStable(name, stem) <==> stem == StableName(name)
  {
    forall s, number | IsNumbered(name, s, number)
      ensures s == StableName(name) && |s| < |name|
    {
      NumberedIff(name, s, number);
    }
    var at := FindLast(name, '#');
    if at.Some? && at.value > 0 && AllDigits(name[at.value + 1..]) {
      assert name == name[..at.value] + "#" + name[at.value + 1..];
      assert IsNumbered(name, name[..at.value], name[at.value + 1..]);
    } else {
      assert StableName(name) == name;
    }
  }

  lemma CheckIff(m: Mode, t: Transport, c: RawCheck)
    ensures ReadCheck(m, t, c).Some? <==> IsCheck(c)
    ensures IsCheck(c) ==> forall id, status ::
              IsResult(m, t, c, id, status) <==> ReadCheck(m, t, c) == Some(id) && c.status == Some(status)
  {
    hide StableName, IsStable;
    if IsCheck(c) {
      forall id: Identity
        ensures IsStable(c.name.value, id.checkId) <==> id.checkId == StableName(c.name.value)
      {
        StableIff(c.name.value, id.checkId);
      }
    }
  }

  ghost predicate AreChecks(raw: seq<RawCheck>) {
    forall c | c in raw :: IsCheck(c)
  }

  /** What the reader makes of the checks of one case. */
  ghost predicate IsReadOf(m: Mode, t: Transport, raw: seq<RawCheck>, r: Reading) {
    && (r.issues == {} <==> AreChecks(raw))
    && (r.issues == {} ==>
          && (forall id, status :: Says(r.checks, id, status) <==> ChecksShow(m, t, raw, id, status))
          && forall id | id in r.checks :: r.checks[id] != {})
  }

  lemma {:induction false} ChecksRead(m: Mode, t: Transport, raw: seq<RawCheck>)
    ensures IsReadOf(m, t, raw, ReadChecks(m, t, raw))
  {
    hide ReadCheck, IsResult, IsCheck;
    if raw != [] {
      var init, c := raw[..|raw| - 1], raw[|raw| - 1];
      ChecksRead(m, t, init);
      assert raw == init + [c];
      CheckIff(m, t, c);
      if IsCheck(c) {
        CheckAdded(m, t, init, c, ReadChecks(m, t, init), ReadCheck(m, t, c).value, c.status.value);
      }
    }
  }

  lemma CheckAdded(
      m: Mode, t: Transport, init: seq<RawCheck>, c: RawCheck, r: Reading, id: Identity, status: Status)
    requires IsReadOf(m, t, init, r) && IsCheck(c)
    requires forall other, s :: IsResult(m, t, c, other, s) <==> id == other && s == status
    ensures IsReadOf(m, t, init + [c], Reading(AddStatus(r.checks, id, status), r.issues))
  {
    hide IsCheck, IsResult;
    var raw, checks := init + [c], AddStatus(r.checks, id, status);
    assert c in raw && forall d | d in init :: d in raw;
    if r.issues == {} {
      forall other, s
        ensures Says(checks, other, s) <==> ChecksShow(m, t, raw, other, s)
      {
        assert Says(checks, other, s) <==> Says(r.checks, other, s) || (other == id && s == status);
        assert ChecksShow(m, t, raw, other, s) <==>
               ChecksShow(m, t, init, other, s) || IsResult(m, t, c, other, s);
      }
    }
  }

  // -------------------------------------------------------------------- cases

  predicate IsAt(c: RawCase, m: Mode, transport: string) {
    c.RawCase? && c.mode == Some(m) && c.transport == Some(transport)
  }

  /** Cases of other modes are passed over; those of a required mode name their
      transport, and none occurs twice. */
  ghost predicate AreCases(raw: seq<RawCase>) {
    && (forall i | 0 <= i < |raw| :: raw[i].RawCase? && (raw[i].mode.Some? ==> raw[i].transport.Some?))
    && (forall i, j, m, transport | 0 <= i < j < |raw| :: !(IsAt(raw[i], m, transport) && IsAt(raw[j], m, transport)))
  }

  /** The table of the cases by mode and transport. */
  ghost predicate IsTable(raw: seq<RawCase>, table: CaseTable) {
    && (forall key | key in table :: exists c :: c in raw && IsAt(c, key.0, key.1))
    && (forall c, m, transport | c in raw && IsAt(c, m, transport) ::
          (m, transport) in table && table[(m, transport)] == c.checks)
  }

  lemma CasesAppend(init: seq<RawCase>, c: RawCase)
    ensures AreCases(init + [c]) <==>
            && AreCases(init) && c.RawCase? && (c.mode.Some? ==> c.transport.Some?)
            && forall d, m, transport | d in init :: !(IsAt(d, m, transport) && IsAt(c, m, transport))
  {
    hide IsAt;
    var raw := init + [c];
    assert raw[|init|] == c && forall i | 0 <= i < |init| :: raw[i] == init[i];
    if AreCases(raw) {
      forall d, m, transport | d in init
        ensures !(IsAt(d, m, transport) && IsAt(c, m, transport))
      {
        var i :| 0 <= i < |init| && init[i] == d;
        assert !(IsAt(raw[i], m, transport) && IsAt(raw[|init|], m, transport));
      }
    }
  }

  lemma {:induction false} CasesRead(raw: seq<RawCase>)
    ensures var (table, issues) := ReadCases(raw);
            && (issues == {} <==> AreCases(raw))
            && (issues == {} ==> IsTable(raw, table))
  {
    hide AreCases;
    if raw == [] {
      NoCasesAre();
    } else {
      var init, c := raw[..|raw| - 1], raw[|raw| - 1];
      CasesRead(init);
      assert raw == init + [c];
      CasesAppend(init, c);
      if c.RawCase? && c.mode.Some? && c.transport.Some? && ReadCases(init).1 == {} {
        CaseAdded(init, c, ReadCases(init).0);
      }
    }
  }

  lemma NoCasesAre()
    ensures AreCases([]) && IsTable([], map[])
  {
  }

  lemma CaseAdded(init: seq<RawCase>, c: RawCase, table: CaseTable)
    requires IsTable(init, table) && c.RawCase? && c.mode.Some? && c.transport.Some?
    ensures var key := (c.mode.value, c.transport.value);
            && (key in table <==> exists d :: d in init && IsAt(d, key.0, key.1))
            && (key !in table ==> IsTable(init + [c], table[key := c.checks]))
  {
    var key, raw := (c.mode.value, c.transport.value), init + [c];
    assert IsAt(c, key.0, key.1);
    if key !in table {
      var next := table[key := c.checks];
      forall k | k in next
        ensures exists d :: d in raw && IsAt(d, k.0, k.1)
      {
        if k == key {
          assert c in raw;
        } else {
          var d :| d in init && IsAt(d, k.0, k.1);
          assert d in raw;
        }
      }
      forall d, m, transport | d in raw && IsAt(d, m, transport)
        ensures (m, transport) in next && next[(m, transport)] == d.checks
      {
        if d in init {
          assert (m, transport) in table;
        } else {
          assert d == c;
        }
      }
    }
  }

  predicate IsCaseOf(c: RawCase, m: Mode, t: Transport) {
    IsAt(c, m, if t == Stdio then "stdio" else "official-http")
  }

  /** Some case of the check's mode and transport has this result. */
  ghost predicate CasesShow(raw: seq<RawCase>, id: Identity, status: Status) {
    exists c :: c in raw && IsCaseOf(c, id.mode, id.transport) && c.checks.Some?
                && ChecksShow(id.mode, id.transport, c.checks.value, id, status)
  }

  /** There is a case of this mode and transport whose checks can all be read. */
  ghost predicate IsGoodCase(raw: seq<RawCase>, m: Mode, t: Transport) {
    exists c :: c in raw && IsCaseOf(c, m, t) && c.checks.Some? && c.checks.value != [] && AreChecks(c.checks.value)
  }

  lemma ChecksOfCase(raw: seq<RawCase>, table: CaseTable, m: Mode, t: Transport)
    requires IsTable(raw, table)
    ensures var key := (m, TransportName(t));
            && (IsGoodCase(raw, m, t) <==>
                  key in table && table[key].Some? && table[key].value != [] && AreChecks(table[key].value))
            && (key in table && table[key].Some? ==>
                  forall id: Identity, status | id.mode == m && id.transport == t ::
                    CasesShow(raw, id, status) <==> ChecksShow(m, t, table[key].value, id, status))
  {
    hide AreChecks, ChecksShow;
    var key := (m, TransportName(t));
    assert forall c :: IsCaseOf(c, m, t) <==> IsAt(c, key.0, key.1);
    if key in table {
      var c :| c in raw && IsAt(c, key.0, key.1);
      assert IsCaseOf(c, m, t) && table[key] == c.checks;
    }
  }

  // ------------------------------------------------------------------- results

  predicate IsRecordOf(r: RawIdentity, id: Identity) {
    && r.RawIdentity? && r.mode == Some(id.mode) && r.transport == Some(id.transport) && r.source == Some(id.source)
    && r.scenario == Some(id.scenario) && r.checkId == Some(id.checkId)
  }

  ghost predicate RecordsShow(raw: seq<RawIdentity>, id: Identity) {
    exists r :: r in raw && IsRecordOf(r, id)
  }

  /** The report holds this status of this check. */
  ghost predicate Shows(body: Body, id: Identity, status: Status) {
    match body
    case Full(cases) => cases.Some? && CasesShow(cases.value, id, status)
    case Compact(_, _, _, buckets) =>
      && buckets.Some?
      && match status
         case Pass => buckets.value.passing.Some? && RecordsShow(buckets.value.passing.value, id)
         case Fail => buckets.value.failing.Some? && RecordsShow(buckets.value.failing.value, id)
         case Skip => false
  }

  ghost predicate ShowsCase(body: Body, m: Mode, t: Transport) {
    exists id: Identity, status :: id.mode == m && id.transport == t && Shows(body, id, status)
  }

  /** Over HTTP a check that is not supplemental observed the scenario. */
  ghost predicate ShowsScenario(body: Body, m: Mode, s: string) {
    exists id: Identity, status ::
      && id.mode == m && id.transport == OfficialHttp && id.source != Supplemental && id.scenario == s
      && Shows(body, id, status)
  }

  /** Both transports have results, and over HTTP just the required scenarios. */
  ghost predicate Covers(catalog: Catalog, body: Body, m: Mode) {
    && ShowsCase(body, m, Stdio) && ShowsCase(body, m, OfficialHttp)
    && forall s :: ShowsScenario(body, m, s) <==> s in catalog(m)
  }

  /** `checks` holds, of one mode, just the results shown. */
  ghost predicate AreResults(checks: Checks, body: Body, m: Mode) {
    && (forall id: Identity, status | id.mode == m :: Says(checks, id, status) <==> Shows(body, id, status))
    && (forall id | id in checks :: checks[id] != {})
  }

  lemma StatusExists(checks: Checks, id: Identity)
    requires id in checks ==> checks[id] != {}
    ensures id in checks <==> exists status :: Says(checks, id, status)
  {
    if id in checks {
      var status :| status in checks[id];
      assert Says(checks, id, status);
    }
  }

  lemma ObservedIff(catalog: Catalog, checks: Checks, body: Body, m: Mode)
    requires AreResults(checks, body, m)
    ensures Observed(checks, m) == Expected(catalog, m) <==> forall s :: ShowsScenario(body, m, s) <==> s in catalog(m)
  {
    hide Says, Shows;
    forall s
      ensures s in Observed(checks, m) <==> ShowsScenario(body, m, s)
    {
      ScenarioIff(checks, body, m, s);
    }
  }

  lemma ScenarioIff(checks: Checks, body: Body, m: Mode, s: string)
    requires AreResults(checks, body, m)
    ensures s in Observed(checks, m) <==> ShowsScenario(body, m, s)
  {
    hide Shows;
    if s in Observed(checks, m) {
      var id :| id in checks && id.mode == m && id.transport == OfficialHttp && !id.source.Supplemental?
        && id.scenario == s;
      StatusExists(checks, id);
      var status :| Says(checks, id, status);
      assert Shows(body, id, status);
    }
    if ShowsScenario(body, m, s) {
      var id: Identity, status :|
        && id.mode == m && id.transport == OfficialHttp && id.source != Supplemental && id.scenario == s
        && Shows(body, id, status);
      assert Says(checks, id, status);
    }
  }

  lemma HasCaseIff(checks: Checks, body: Body, m: Mode, t: Transport)
    requires AreResults(checks, body, m)
    ensures HasCase(checks, m, t) <==> ShowsCase(body, m, t)
  {
    hide Shows;
    if HasCase(checks, m, t) {
      var id :| id in checks && id.mode == m && id.transport == t;
      StatusExists(checks, id);
      var status :| Says(checks, id, status);
      assert Shows(body, id, status);
    }
    if ShowsCase(body, m, t) {
      var id: Identity, status :| id.mode == m && id.transport == t && Shows(body, id, status);
      assert Says(checks, id, status);
    }
  }

  // ------------------------------------------------------------- full reports

  /** Every case of a required mode and transport holds only checks that can be
      read. */
  ghost predicate IsFullBody(raw: seq<RawCase>) {
    && AreCases(raw)
    && forall c, m, t | c in raw && IsCaseOf(c, m, t) :: c.checks.Some? && AreChecks(c.checks.value)
  }

  lemma GoodCaseIff(raw: seq<RawCase>, table: CaseTable, m: Mode, t: Transport)
    requires IsTable(raw, table)
    ensures IsGoodCase(raw, m, t) <==>
            && (forall c | c in raw && IsCaseOf(c, m, t) :: c.checks.Some? && AreChecks(c.checks.value))
            && ShowsCase(Full(Some(raw)), m, t)
  {
    hide IsResult, IsCheck, AreChecks;
    var body := Full(Some(raw));
    if IsGoodCase(raw, m, t) {
      var c :| c in raw && IsCaseOf(c, m, t) && c.checks.Some? && c.checks.value != [] && AreChecks(c.checks.value);
      var d := c.checks.value[0];
      var id, status := SomeResult(m, t, c.checks.value);
      assert Shows(body, id, status);
    }
    if ShowsCase(body, m, t) {
      var id: Identity, status :| id.mode == m && id.transport == t && Shows(body, id, status);
      var c :| c in raw && IsCaseOf(c, m, t) && c.checks.Some? && ChecksShow(m, t, c.checks.value, id, status);
    }
  }

  lemma SomeResult(m: Mode, t: Transport, raw: seq<RawCheck>) returns (id: Identity, status: Status)
    requires raw != [] && AreChecks(raw)
    ensures ChecksShow(m, t, raw, id, status) && id.mode == m && id.transport == t
  {
    hide IsResult;
    var c := raw[0];
    CheckIff(m, t, c);
    id, status := ReadCheck(m, t, c).value, c.status.value;
    assert IsResult(m, t, c, id, status);
  }

  /** The two cases of a mode, read together. */
  lemma BothCasesRead(raw: seq<RawCase>, m: Mode, stdio: seq<RawCheck>, http: seq<RawCheck>)
    requires AreChecks(stdio) && AreChecks(http)
    requires forall id: Identity, status | id.mode == m && id.transport == Stdio ::
               CasesShow(raw, id, status) <==> ChecksShow(m, Stdio, stdio, id, status)
    requires forall id: Identity, status | id.mode == m && id.transport == OfficialHttp ::
               CasesShow(raw, id, status) <==> ChecksShow(m, OfficialHttp, http, id, status)
    ensures var s, h := ReadChecks(m, Stdio, stdio), ReadChecks(m, OfficialHttp, http);
            && s.issues == {} && h.issues == {} && Observed(s.checks + h.checks, m) == Observed(h.checks, m)
            && AreResults(s.checks + h.checks, Full(Some(raw)), m)
            && forall id | id in s.checks + h.checks :: id.mode == m
  {
    hide ReadChecks, CasesShow, ChecksShow, AreChecks;
    var s, h := ReadChecks(m, Stdio, stdio).checks, ReadChecks(m, OfficialHttp, http).checks;
    ChecksRead(m, Stdio, stdio);
    ChecksRead(m, OfficialHttp, http);
    ChecksAreFrom(m, Stdio, stdio);
    ChecksAreFrom(m, OfficialHttp, http);
    forall id: Identity, status | id.mode == m
      ensures Says(s + h, id, status) <==> CasesShow(raw, id, status)
    {
      if id.transport == Stdio {
        assert id !in h;
        assert Says(s + h, id, status) <==> Says(s, id, status);
      } else {
        assert id !in s;
        assert Says(s + h, id, status) <==> Says(h, id, status);
      }
    }
  }

  lemma CaseReadIs(catalog: Catalog, table: CaseTable, m: Mode, t: Transport)
    ensures var key, r := (m, TransportName(t)), ReadCase(catalog, table, m, t);
            if key !in table || table[key].None? || table[key].value == [] then r.issues != {}
            else
              var one := ReadChecks(m, t, table[key].value);
              && r.checks == one.checks
              && (r.issues == {} <==>
                    one.issues == {} && (t.OfficialHttp? ==> Observed(one.checks, m) == Expected(catalog, m)))
  {
    hide ReadChecks, Observed, Expected;
  }

  lemma ModeRead(
      catalog: Catalog, selected: map<Mode, seq<string>>, raw: seq<RawCase>, table: CaseTable, m: Mode)
    requires IsTable(raw, table)
    ensures var r, body := ReadMode(catalog, selected, table, m), Full(Some(raw));
            && (r.issues == {} <==>
                  && m in selected && selected[m] == catalog(m)
                  && IsGoodCase(raw, m, Stdio) && IsGoodCase(raw, m, OfficialHttp)
                  && forall s :: ShowsScenario(body, m, s) <==> s in catalog(m))
            && (r.issues == {} ==> AreResults(r.checks, body, m) && forall id | id in r.checks :: id.mode == m)
  {
    hide ReadChecks, ReadCase, Observed, Expected, IsTable, CasesShow, ChecksShow, ShowsScenario, TransportName;
    hide IsGoodCase, AreChecks, AreResults;
    ChecksOfCase(raw, table, m, Stdio);
    ChecksOfCase(raw, table, m, OfficialHttp);
    CaseReadIs(catalog, table, m, Stdio);
    CaseReadIs(catalog, table, m, OfficialHttp);
    if IsGoodCase(raw, m, Stdio) && IsGoodCase(raw, m, OfficialHttp) {
      var stdio, http := table[(m, TransportName(Stdio))].value, table[(m, TransportName(OfficialHttp))].value;
      BothCasesRead(raw, m, stdio, http);
      var checks := ReadChecks(m, Stdio, stdio).checks + ReadChecks(m, OfficialHttp, http).checks;
      ObservedIff(catalog, checks, Full(Some(raw)), m);
    } else {
      BadCaseUnread(raw, table, m, Stdio);
      BadCaseUnread(raw, table, m, OfficialHttp);
    }
  }

  lemma BadCaseUnread(raw: seq<RawCase>, table: CaseTable, m: Mode, t: Transport)
    requires IsTable(raw, table)
    ensures var key := (m, TransportName(t));
            !IsGoodCase(raw, m, t) && key in table && table[key].Some? && table[key].value != [] ==>
              ReadChecks(m, t, table[key].value).issues != {}
  {
    hide ReadChecks, IsTable, TransportName, AreChecks, IsGoodCase, ChecksShow, CasesShow;
    ChecksOfCase(raw, table, m, t);
    var key := (m, TransportName(t));
    if key in table && table[key].Some? {
      ChecksRead(m, t, table[key].value);
    }
  }

  ghost predicate IsSelected(catalog: Catalog, selected: map<Mode, seq<string>>) {
    forall m :: m in selected && selected[m] == catalog(m)
  }

  lemma ThreeModes(catalog: Catalog, selected: map<Mode, seq<string>>, table: CaseTable)
    ensures var r := ReadModes(catalog, selected, table, MODES);
            var s, i := ReadMode(catalog, selected, table, Shipping), ReadMode(catalog, selected, table, Intermediate);
            var m := ReadMode(catalog, selected, table, Modern);
            && r.checks == s.checks + i.checks + m.checks
            && r.issues == s.issues + i.issues + m.issues
  {
    hide ReadMode;
    assert MODES[..2] == [Shipping, Intermediate] && MODES[..2][..1] == [Shipping] && MODES[..2][..1][..0] == [];
    ModesStep(catalog, selected, table, MODES);
    ModesStep(catalog, selected, table, MODES[..2]);
    ModesStep(catalog, selected, table, MODES[..2][..1]);
    hide ReadModes;
    var s := ReadMode(catalog, selected, table, Shipping);
    assert map[] + s.checks == s.checks && {} + s.issues == s.issues;
  }

  lemma ModesStep(catalog: Catalog, selected: map<Mode, seq<string>>, table: CaseTable, modes: seq<Mode>)
    requires modes != []
    ensures ReadModes(catalog, selected, table, []) == Reading(map[], {})
    ensures var init, last := ReadModes(catalog, selected, table, modes[..|modes| - 1]),
                              ReadMode(catalog, selected, table, modes[|modes| - 1]);
            ReadModes(catalog, selected, table, modes)
            == Reading(init.checks + last.checks, init.issues + last.issues)
  {
    hide ReadMode;
  }

  /** What the reader makes of a body. */
  ghost predicate IsReadOfBody(catalog: Catalog, selected: map<Mode, seq<string>>, body: Body, r: Reading) {
    && (r.issues == {} <==>
          IsSelected(catalog, selected) && IsBody(body) && forall m :: Covers(catalog, body, m))
    && (r.issues == {} ==> forall m :: AreResults(r.checks, body, m))
  }

  ghost predicate AreRecords(raw: seq<RawIdentity>) {
    && (forall i | 0 <= i < |raw| :: raw[i].RawIdentity?
          && raw[i].mode.Some? && raw[i].transport.Some? && raw[i].source.Some? && raw[i].scenario.Some?
          && raw[i].checkId.Some? && raw[i].checkId != Some(""))
    && (forall i, j | 0 <= i < j < |raw| :: raw[i] != raw[j])
  }

  ghost predicate IsBody(body: Body) {
    match body
    case Full(cases) => cases.Some? && IsFullBody(cases.value)
    case Compact(kind, modes, transports, buckets) =>
      && kind == "mcp-conformance-regression-baseline-v1"
      && modes == [Shipping, Intermediate, Modern]
      && transports in [Some(["stdio", "official-http"]), Some(["official-http", "stdio"])]
      && buckets.Some? && buckets.value.passing.Some? && buckets.value.failing.Some?
      && AreRecords(buckets.value.passing.value) && AreRecords(buckets.value.failing.value)
  }

  /** Every case of the mode holds only checks that can be read. */
  ghost predicate IsModeReadable(raw: seq<RawCase>, m: Mode) {
    forall c, t | c in raw && IsCaseOf(c, m, t) :: c.checks.Some? && AreChecks(c.checks.value)
  }

  lemma ModeReadCovers(
      catalog: Catalog, selected: map<Mode, seq<string>>, raw: seq<RawCase>, table: CaseTable, m: Mode)
    requires IsTable(raw, table)
    ensures var r, body := ReadMode(catalog, selected, table, m), Full(Some(raw));
            && (r.issues == {} <==>
                  m in selected && selected[m] == catalog(m) && IsModeReadable(raw, m) && Covers(catalog, body, m))
            && (r.issues == {} ==> AreResults(r.checks, body, m) && forall id | id in r.checks :: id.mode == m)
  {
    hide ReadMode, IsGoodCase, IsTable, ShowsCase, ShowsScenario, AreResults, AreChecks, IsCaseOf;
    ModeRead(catalog, selected, raw, table, m);
    GoodCaseIff(raw, table, m, Stdio);
    GoodCaseIff(raw, table, m, OfficialHttp);
    ReadableByTransport(raw, m);
    hide IsModeReadable;
  }

  lemma ReadableByTransport(raw: seq<RawCase>, m: Mode)
    ensures IsModeReadable(raw, m) <==>
            && (forall c | c in raw && IsCaseOf(c, m, Stdio) :: c.checks.Some? && AreChecks(c.checks.value))
            && forall c | c in raw && IsCaseOf(c, m, OfficialHttp) :: c.checks.Some? && AreChecks(c.checks.value)
  {
    hide AreChecks, IsCaseOf;
    forall c, t | c in raw && IsCaseOf(c, m, t)
      ensures t == Stdio || t == OfficialHttp
    {
    }
  }

  lemma PartsAreResults(raw: seq<RawCase>, s: Checks, i: Checks, m: Checks)
    requires var body := Full(Some(raw));
             AreResults(s, body, Shipping) && AreResults(i, body, Intermediate) && AreResults(m, body, Modern)
    requires forall id | id in s :: id.mode == Shipping
    requires forall id | id in i :: id.mode == Intermediate
    requires forall id | id in m :: id.mode == Modern
    ensures forall mode :: AreResults(s + i + m, Full(Some(raw)), mode)
  {
    hide Shows;
    var body, all := Full(Some(raw)), s + i + m;
    forall id: Identity, status
      ensures Says(all, id, status) <==> Shows(body, id, status)
    {
      match id.mode
      case Shipping => assert Says(all, id, status) <==> Says(s, id, status);
      case Intermediate => assert Says(all, id, status) <==> Says(i, id, status);
      case Modern => assert Says(all, id, status) <==> Says(m, id, status);
    }
  }

  lemma ModesRead(catalog: Catalog, selected: map<Mode, seq<string>>, raw: seq<RawCase>, table: CaseTable)
    requires AreCases(raw) && IsTable(raw, table)
    ensures var r, body := ReadModes(catalog, selected, table, MODES), Full(Some(raw));
            && (r.issues == {} <==>
                  IsSelected(catalog, selected) && IsFullBody(raw) && forall m :: Covers(catalog, body, m))
            && (r.issues == {} ==> forall m :: AreResults(r.checks, body, m))
  {
    hide ReadModes, ReadMode, AreResults, Covers, AreCases, IsTable, IsFullBody, IsModeReadable, IsSelected;
    ThreeModes(catalog, selected, table);
    ModeReadCovers(catalog, selected, raw, table, Shipping);
    ModeReadCovers(catalog, selected, raw, table, Intermediate);
    ModeReadCovers(catalog, selected, raw, table, Modern);
    FullBodyByModes(raw);
    SelectedByModes(catalog, selected);
    CoversByModes(catalog, Full(Some(raw)));
    if ReadModes(catalog, selected, table, MODES).issues == {} {
      PartsAreResults(raw, ReadMode(catalog, selected, table, Shipping).checks,
                      ReadMode(catalog, selected, table, Intermediate).checks,
                      ReadMode(catalog, selected, table, Modern).checks);
    }
  }

  lemma FullBodyByModes(raw: seq<RawCase>)
    requires AreCases(raw)
    ensures IsFullBody(raw) <==>
            IsModeReadable(raw, Shipping) && IsModeReadable(raw, Intermediate) && IsModeReadable(raw, Modern)
  {
    hide AreCases, AreChecks;
    forall c, m, t | c in raw && IsCaseOf(c, m, t)
      ensures c.RawCase? && (IsModeReadable(raw, m) ==> c.checks.Some? && AreChecks(c.checks.value))
      ensures m == Shipping || m == Intermediate || m == Modern
    {
      assert c.RawCase?;
    }
  }

  lemma SelectedByModes(catalog: Catalog, selected: map<Mode, seq<string>>)
    ensures IsSelected(catalog, selected) <==>
            && Shipping in selected && selected[Shipping] == catalog(Shipping)
            && Intermediate in selected && selected[Intermediate] == catalog(Intermediate)
            && Modern in selected && selected[Modern] == catalog(Modern)
  {
    forall m
      ensures && Shipping in selected && selected[Shipping] == catalog(Shipping)
              && Intermediate in selected && selected[Intermediate] == catalog(Intermediate)
              && Modern in selected && selected[Modern] == catalog(Modern)
              ==> m in selected && selected[m] == catalog(m)
    {
      match m
      case Shipping =>
      case Intermediate =>
      case Modern =>
    }
  }

  lemma CoversByModes(catalog: Catalog, body: Body)
    ensures (forall m :: Covers(catalog, body, m)) <==>
            Covers(catalog, body, Shipping) && Covers(catalog, body, Intermediate) && Covers(catalog, body, Modern)
  {
    hide Covers;
    forall m
      ensures Covers(catalog, body, Shipping) && Covers(catalog, body, Intermediate) && Covers(catalog, body, Modern)
              ==> Covers(catalog, body, m)
    {
      match m
      case Shipping =>
      case Intermediate =>
      case Modern =>
    }
  }

  lemma FullRead(catalog: Catalog, selected: map<Mode, seq<string>>, cases: Option<seq<RawCase>>)
    ensures IsReadOfBody(catalog, selected, Full(cases), ReadFull(catalog, selected, cases))
  {
    hide ReadModes, ReadCases, AreResults, Covers, AreCases, AreChecks, IsSelected;
    if cases.Some? {
      var raw, table := cases.value, ReadCases(cases.value).0;
      CasesRead(raw);
      if ReadCases(raw).1 == {} {
        ModesRead(catalog, selected, raw, table);
      }
    }
  }

  // -------------------------------------------------------- compact baselines

  lemma RecordIff(r: RawIdentity)
    ensures ReadIdentity(r).Some? <==>
            && r.RawIdentity? && r.mode.Some? && r.transport.Some? && r.source.Some? && r.scenario.Some?
            && r.checkId.Some? && r.checkId != Some("")
    ensures ReadIdentity(r).Some? ==> forall id :: IsRecordOf(r, id) <==> ReadIdentity(r) == Some(id)
  {
  }

  lemma RecordsAppend(init: seq<RawIdentity>, r: RawIdentity)
    ensures AreRecords(init + [r]) <==> AreRecords(init) && ReadIdentity(r).Some? && r !in init
    ensures forall id :: RecordsShow(init + [r], id) <==> RecordsShow(init, id) || IsRecordOf(r, id)
  {
    hide ReadIdentity, IsRecordOf;
    var raw := init + [r];
    RecordIff(r);
    assert raw[|init|] == r && forall i | 0 <= i < |init| :: raw[i] == init[i];
    assert r in raw && forall d | d in init :: d in raw;
  }

  lemma SameRecord(r: RawIdentity, d: RawIdentity, id: Identity)
    requires IsRecordOf(r, id) && IsRecordOf(d, id)
    ensures r == d
  {
  }

  lemma {:induction false} IdentitiesRead(status: Status, raw: seq<RawIdentity>)
    ensures var (seen, issues) := ReadIdentities(status, raw);
            && (issues == {} <==> AreRecords(raw))
            && (issues == {} ==> forall id :: id in seen <==> RecordsShow(raw, id))
  {
    hide ReadIdentity, IsRecordOf, AreRecords;
    if raw == [] {
      NoRecords();
    } else {
      var init, r := raw[..|raw| - 1], raw[|raw| - 1];
      IdentitiesRead(status, init);
      assert raw == init + [r];
      RecordsAppend(init, r);
      RecordIff(r);
      if ReadIdentity(r).Some? && ReadIdentities(status, init).1 == {} {
        var id := ReadIdentity(r).value;
        assert IsRecordOf(r, id);
        forall d | d in init && IsRecordOf(d, id)
          ensures d == r
        {
          SameRecord(d, r, id);
        }
        assert RecordsShow(init, id) <==> r in init;
      }
    }
  }

  lemma NoRecords()
    ensures AreRecords([]) && forall id :: !RecordsShow([], id)
  {
  }

  lemma TransportsIff(transports: seq<string>)
    ensures AreBothTransports(transports) <==>
            transports == ["stdio", "official-http"] || transports == ["official-http", "stdio"]
  {
    var both := set t | t in transports;
    if AreBothTransports(transports) {
      assert "stdio" in both && "official-http" in both;
      assert "stdio" != "official-http" by {
        assert |"stdio"| != |"official-http"|;
      }
      assert transports[0] in both && transports[1] in both;
      assert transports == [transports[0], transports[1]];
    }
    if |transports| == 2 {
      assert transports == [transports[0], transports[1]];
      assert both == {transports[0], transports[1]};
    }
  }

  lemma BucketResults(p: seq<RawIdentity>, f: seq<RawIdentity>, passing: set<Identity>, failing: set<Identity>, m: Mode)
    requires forall id :: id in passing <==> RecordsShow(p, id)
    requires forall id :: id in failing <==> RecordsShow(f, id)
    ensures forall kind, modes, transports ::
              AreResults(BucketChecks(passing, failing),
                         Compact(kind, modes, transports, Some(Buckets(Some(p), Some(f)))), m)
  {
    hide RecordsShow;
    var checks := BucketChecks(passing, failing);
    forall id
      ensures Says(checks, id, Pass) <==> RecordsShow(p, id)
      ensures Says(checks, id, Fail) <==> RecordsShow(f, id)
      ensures !Says(checks, id, Skip)
    {
    }
  }

  lemma CompactCovers(catalog: Catalog, selected: map<Mode, seq<string>>, checks: Checks, body: Body, m: Mode)
    requires AreResults(checks, body, m)
    ensures CoverageIssues(catalog, selected, checks, m) == {} <==>
            m in selected && selected[m] == catalog(m) && Covers(catalog, body, m)
  {
    hide HasCase, Observed, Expected, AreResults, ShowsCase, ShowsScenario;
    HasCaseIff(checks, body, m, Stdio);
    HasCaseIff(checks, body, m, OfficialHttp);
    ObservedIff(catalog, checks, body, m);
  }

  lemma CompactRead(catalog: Catalog, selected: map<Mode, seq<string>>, body: Body)
    requires body.Compact?
    ensures IsReadOfBody(catalog, selected, body, ReadCompact(catalog, selected, body))
  {
    hide ReadIdentities, AreRecords, AreResults, CoverageIssues, Covers, AreBothTransports, BucketChecks;
    if body.transports.Some? {
      TransportsIff(body.transports.value);
    }
    SelectedByModes(catalog, selected);
    CoversByModes(catalog, body);
    if body.buckets.Some? && body.buckets.value.passing.Some? && body.buckets.value.failing.Some? {
      var p, f := body.buckets.value.passing.value, body.buckets.value.failing.value;
      IdentitiesRead(Pass, p);
      IdentitiesRead(Fail, f);
      var passing, failing := ReadIdentities(Pass, p).0, ReadIdentities(Fail, f).0;
      if AreRecords(p) && AreRecords(f) {
        forall m
          ensures AreResults(BucketChecks(passing, failing), body, m)
          ensures CoverageIssues(catalog, selected, BucketChecks(passing, failing), m) == {} <==>
                  m in selected && selected[m] == catalog(m) && Covers(catalog, body, m)
        {
          BucketResults(p, f, passing, failing, m);
          CompactCovers(catalog, selected, BucketChecks(passing, failing), body, m);
        }
      }
    }
    hide IsSelected;
  }

  // ------------------------------------------------------------------- reports

  /** Nothing is wrong with the report: its header and scenario lists, its
      checks, and that every required case and scenario is there. */
  ghost predicate IsCleanReport(catalog: Catalog, r: Report) {
    && r.schemaVersion == 4 && r.versionCheck && r.modernFeature
    && IsBody(r.body) && (forall m :: Covers(catalog, r.body, m))
    && r.official.Some?
    && var o := r.official.value;
       && o.repository == "modelcontextprotocol/conformance"
       && o.gitRef == "49103de6ed70804e940637bf3e9e29e4a3f54e64"
       && o.authenticationIncluded && o.scenarios.Some? && IsSelected(catalog, o.scenarios.value)
  }

  lemma HeaderIff(r: Report)
    ensures HeaderIssues(r) == {} <==>
            && r.schemaVersion == 4 && r.versionCheck && r.modernFeature
            && r.official.Some?
            && r.official.value.repository == "modelcontextprotocol/conformance"
            && r.official.value.gitRef == "49103de6ed70804e940637bf3e9e29e4a3f54e64"
            && r.official.value.authenticationIncluded && r.official.value.scenarios.Some?
  {
  }

  /** Reading finds nothing wrong with exactly the clean reports, and then holds
      exactly their results. */
  lemma CleanReportIsRead(catalog: Catalog, r: Report)
    ensures Read(catalog, r).issues == {} <==> IsCleanReport(catalog, r)
    ensures IsCleanReport(catalog, r) ==>
              forall id, status :: Says(Read(catalog, r).checks, id, status) <==> Shows(r.body, id, status)
  {
    hide ReadFull, ReadCompact, HeaderIssues, IsSelected, IsBody, Covers, Says, Shows;
    HeaderIff(r);
    if r.body.Full? {
      FullRead(catalog, Selected(r), r.body.cases);
    } else {
      CompactRead(catalog, Selected(r), r.body);
    }
    var checks := Read(catalog, r).checks;
    if Read(catalog, r).issues == {} {
      forall id: Identity, status
        ensures Says(checks, id, status) <==> Shows(r.body, id, status)
      {
        assert AreResults(checks, r.body, id.mode);
      }
    }
  }

  // ---------------------------------------------------------------------- gate

  /** The gate succeeds for exactly two clean reports with one recorded policy,
      no failure in the shipping mode, no new failure and no lost result. */
  lemma GateSucceedsForReports(catalog: Catalog, candidate: Report, baseline: Report)
    ensures Evaluate(catalog, candidate, baseline).Success() <==>
            && IsCleanReport(catalog, candidate) && IsCleanReport(catalog, baseline)
            && candidate.automaticAuth.Some? && candidate.automaticAuth == baseline.automaticAuth
            && (forall id: Identity | id.mode == Shipping ::
                  !Shows(candidate.body, id, Fail) && !Shows(baseline.body, id, Fail))
            && (forall id | Shows(candidate.body, id, Fail) :: Shows(baseline.body, id, Fail))
            && (forall id | Shows(baseline.body, id, Pass) :: Shows(candidate.body, id, Pass))
            && forall id | Shows(baseline.body, id, Fail) ::
                 Shows(candidate.body, id, Fail) || Shows(candidate.body, id, Pass)
  {
    hide Read, IsCleanReport, Shows, Evaluate, Says;
    CleanReportIsRead(catalog, candidate);
    CleanReportIsRead(catalog, baseline);
    GateSucceedsIff(catalog, candidate, baseline);
  }

  /** What the gate says about the reports as a whole. */
  lemma GateIssuesForReports(catalog: Catalog, candidate: Report, baseline: Report, checkId: string)
    requires IsCleanReport(catalog, candidate) && IsCleanReport(catalog, baseline)
    ensures var issues := Evaluate(catalog, candidate, baseline).gateIssues;
            && (NoAuthPolicy in issues <==> candidate.automaticAuth.None? || baseline.automaticAuth.None?)
            && (OtherAuthPolicy in issues <==>
                  && candidate.automaticAuth.Some? && baseline.automaticAuth.Some?
                  && candidate.automaticAuth != baseline.automaticAuth)
            && (ShippingFails(checkId) in issues <==>
                  exists id: Identity ::
                    id.mode == Shipping && id.checkId == checkId && Shows(candidate.body, id, Fail))
            && (BaselineShippingFails(checkId) in issues <==>
                  exists id: Identity ::
                    id.mode == Shipping && id.checkId == checkId && Shows(baseline.body, id, Fail))
  {
    hide Read, IsCleanReport, Shows;
    CleanReportIsRead(catalog, candidate);
    CleanReportIsRead(catalog, baseline);
    var c, b := Read(catalog, candidate).checks, Read(catalog, baseline).checks;
    assert forall id :: Says(c, id, Fail) <==> Shows(candidate.body, id, Fail);
    assert forall id :: Says(b, id, Fail) <==> Shows(baseline.body, id, Fail);
  }

  /** The lists of the gate for clean reports. */
  lemma GateListsForReports(catalog: Catalog, candidate: Report, baseline: Report, id: Identity)
    requires IsCleanReport(catalog, candidate) && IsCleanReport(catalog, baseline)
    ensures var gate := Evaluate(catalog, candidate, baseline);
            var passes, fails := Shows(candidate.body, id, Pass), Shows(candidate.body, id, Fail);
            var passed, failed := Shows(baseline.body, id, Pass), Shows(baseline.body, id, Fail);
            && (id in gate.newFailures <==> fails && !failed)
            && (id in gate.knownFailures <==> fails && failed)
            && (id in gate.missingChecks <==> (passed && !passes) || (failed && !fails && !passes))
            && (id in gate.fixedChecks <==> failed && !fails && passes)
  {
    hide Read, IsCleanReport, Shows;
    CleanReportIsRead(catalog, candidate);
    CleanReportIsRead(catalog, baseline);
    var c, b := Read(catalog, candidate).checks, Read(catalog, baseline).checks;
    assert Says(c, id, Pass) <==> Shows(candidate.body, id, Pass);
    assert Says(c, id, Fail) <==> Shows(candidate.body, id, Fail);
    assert Says(b, id, Pass) <==> Shows(baseline.body, id, Pass);
    assert Says(b, id, Fail) <==> Shows(baseline.body, id, Fail);
  }
}

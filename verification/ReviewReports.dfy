/** When the reviewer gate finds nothing wrong with a report, which results it
    then takes from it, and what the gate makes of them
    (scripts/mcp_conformance/review_regressions.py). */
module ReviewReports {
  import opened Text
  import opened ReviewGate

  // ------------------------------------------------------------- full reports

  predicate IsNamed(name: Option<string>) {
    name.Some? && "review/" <= name.value
  }

  predicate IsCheck(c: RawCheck) {
    c.RawCheck? && IsNamed(c.name) && c.success.Some?
  }

  /** Each is a check with a result, and no two have one name. */
  ghost predicate AreChecks(raw: seq<RawCheck>) {
    && (forall i | 0 <= i < |raw| :: IsCheck(raw[i]))
    && (forall i, j | 0 <= i < j < |raw| :: raw[i].name != raw[j].name)
  }

  ghost predicate AllSucceed(raw: seq<RawCheck>) {
    forall c | c in raw :: c.RawCheck? && c.success == Some(true)
  }

  ghost predicate IsCase(required: set<Case>, c: RawCase) {
    && c.RawCase? && c.key.Some? && c.key.value in required
    && c.checks.Some? && c.checks.value != [] && AreChecks(c.checks.value)
    && c.success == Some(AllSucceed(c.checks.value))
  }

  /** Each is a required case with checks that says whether all of them
      succeeded, and no case occurs twice. */
  ghost predicate AreCases(required: set<Case>, raw: seq<RawCase>) {
    && (forall i | 0 <= i < |raw| :: IsCase(required, raw[i]))
    && (forall i, j | 0 <= i < j < |raw| :: raw[i].key != raw[j].key)
  }

  /** Some case has a check with this identity and result. */
  ghost predicate CasesShow(raw: seq<RawCase>, id: Identity, success: bool) {
    exists c :: c in raw && CaseShows(c, id, success)
  }

  predicate CaseShows(c: RawCase, id: Identity, success: bool) {
    && c.RawCase? && c.key == Some(id.owner) && c.checks.Some?
    && RawCheck(Some(id.checkId), Some(success)) in c.checks.value
  }

  lemma ChecksAppend(init: seq<RawCheck>, c: RawCheck)
    ensures AreChecks(init + [c]) <==> AreChecks(init) && IsCheck(c) && forall d | d in init :: d.name != c.name
    ensures AllSucceed(init + [c]) <==> AllSucceed(init) && c.RawCheck? && c.success == Some(true)
  {
    hide IsNamed;
    var raw := init + [c];
    assert raw[|init|] == c && forall i | 0 <= i < |init| :: raw[i] == init[i];
    assert AllSucceed(raw) ==> c in raw && forall d | d in init :: d in raw;
    if AreChecks(raw) {
      assert forall i | 0 <= i < |init| :: raw[i].name != raw[|init|].name;
    }
  }

  /** What the reader makes of the checks of one case. */
  ghost predicate IsReadOf(key: Case, raw: seq<RawCheck>, r: CaseReading) {
    && (r.issues == {} <==> AreChecks(raw))
    && (r.issues == {} ==>
          && (r.success <==> AllSucceed(raw))
          && (forall id | id in r.checks :: id.owner == key)
          && forall name, s :: Holds(r.checks, Identity(key, name), s) <==> RawCheck(Some(name), Some(s)) in raw)
  }

  predicate Holds(checks: Checks, id: Identity, success: bool) {
    id in checks && checks[id] == success
  }

  lemma CheckAdded(key: Case, init: seq<RawCheck>, c: RawCheck, r: CaseReading)
    requires IsReadOf(key, init, r) && IsCheck(c)
    ensures var id := Identity(key, c.name.value);
            IsReadOf(key, init + [c],
                     if id in r.checks then r.(issues := r.issues + {DuplicateCheck})
                     else CaseReading(r.checks[id := c.success.value], r.success && c.success.value, r.issues))
  {
    hide AreChecks, AllSucceed;
    ChecksAppend(init, c);
    var id := Identity(key, c.name.value);
    if r.issues == {} {
      AllAreChecks(init);
      forall d | d in init
        ensures d.RawCheck? && d.success.Some? && Holds(r.checks, Identity(key, d.name.value), d.success.value)
      {
        assert d == RawCheck(Some(d.name.value), Some(d.success.value));
      }
      if id in r.checks {
        assert Holds(r.checks, id, r.checks[id]);
        assert RawCheck(Some(id.checkId), Some(r.checks[id])) in init;
      }
    }
  }

  lemma AllAreChecks(raw: seq<RawCheck>)
    requires AreChecks(raw)
    ensures forall d | d in raw :: IsCheck(d)
  {
  }

  lemma {:induction false} ChecksRead(key: Case, raw: seq<RawCheck>)
    ensures IsReadOf(key, raw, ReadCase(key, raw))
  {
    hide IsNamed;
    if raw != [] {
      var init, c := raw[..|raw| - 1], raw[|raw| - 1];
      ChecksRead(key, init);
      assert raw == init + [c];
      if IsCheck(c) {
        CheckAdded(key, init, c, ReadCase(key, init));
        SameNames(c.name);
      } else {
        ChecksAppend(init, c);
        if c.RawCheck? {
          SameNames(c.name);
        }
      }
      hide AreChecks, AllSucceed;
    }
  }

  lemma SameNames(name: Option<string>)
    ensures IsReviewCheck(name) <==> IsNamed(name)
  {
  }

  lemma CasesAppend(required: set<Case>, init: seq<RawCase>, c: RawCase)
    ensures AreCases(required, init + [c]) <==>
            AreCases(required, init) && IsCase(required, c) && forall d | d in init :: d.key != c.key
    ensures forall id, s :: CasesShow(init + [c], id, s) <==> CasesShow(init, id, s) || CaseShows(c, id, s)
  {
    hide AreChecks, AllSucceed, CaseShows;
    var raw := init + [c];
    assert raw[|init|] == c && forall i | 0 <= i < |init| :: raw[i] == init[i];
    assert forall d | d in init :: d in raw;
    if AreCases(required, raw) {
      assert forall i | 0 <= i < |init| :: raw[i].key != raw[|init|].key;
    }
  }

  predicate Lists(raw: seq<RawCase>, key: Case) {
    exists c :: c in raw && c.RawCase? && c.key == Some(key)
  }

  /** What the reader makes of the cases of a report. */
  ghost predicate IsReadOfCases(required: set<Case>, raw: seq<RawCase>, r: Reading) {
    && (r.issues == {} <==> AreCases(required, raw))
    && (r.issues == {} ==>
          && (forall key :: key in r.cases <==> Lists(raw, key))
          && forall id, s :: Holds(r.checks, id, s) <==> CasesShow(raw, id, s))
  }

  lemma AllAreCases(required: set<Case>, raw: seq<RawCase>)
    requires AreCases(required, raw)
    ensures forall d | d in raw :: IsCase(required, d)
  {
    hide IsCase;
  }

  lemma CaseAdded(required: set<Case>, init: seq<RawCase>, c: RawCase, r: Reading, one: CaseReading)
    requires IsReadOfCases(required, init, r) && c.RawCase? && c.key.Some? && c.key.value in required
    requires c.checks.Some? && c.checks.value != [] && IsReadOf(c.key.value, c.checks.value, one)
    ensures var key := c.key.value;
            IsReadOfCases(required, init + [c],
                          if key in r.cases then r.(issues := r.issues + {DuplicateCase})
                          else Reading(r.checks + one.checks, r.cases + {key},
                                       r.issues + one.issues + if c.success == Some(one.success) then {}
                                                               else {InconsistentCase(key)}))
  {
    hide AreChecks, AllSucceed, AreCases, IsCheck;
    var key := c.key.value;
    CasesAppend(required, init, c);
    if r.issues == {} {
      AllAreCases(required, init);
      assert key in r.cases <==> Lists(init, key);
      if key !in r.cases && one.issues == {} {
        forall id, s
          ensures Holds(r.checks + one.checks, id, s) <==> CasesShow(init, id, s) || CaseShows(c, id, s)
        {
          if id.owner == key {
            assert id == Identity(key, id.checkId);
            assert !CasesShow(init, id, true) && !CasesShow(init, id, false);
            assert !Holds(r.checks, id, true) && !Holds(r.checks, id, false);
          }
        }
        forall k
          ensures k in r.cases + {key} <==> Lists(init + [c], k)
        {
          assert c in init + [c];
          assert forall d | d in init :: d in init + [c];
        }
      }
    }
  }

  lemma {:induction false} CasesRead(required: set<Case>, raw: seq<RawCase>)
    ensures IsReadOfCases(required, raw, ReadCases(required, raw))
  {
    hide AreChecks, AllSucceed, CaseShows, IsReadOf, ReadCase;
    if raw != [] {
      var init, c := raw[..|raw| - 1], raw[|raw| - 1];
      CasesRead(required, init);
      assert raw == init + [c];
      if c.RawCase? && c.key.Some? && c.key.value in required && c.checks.Some? && c.checks.value != [] {
        ChecksRead(c.key.value, c.checks.value);
        CaseAdded(required, init, c, ReadCases(required, init), ReadCase(c.key.value, c.checks.value));
      } else {
        CasesAppend(required, init, c);
      }
      hide AreCases, CasesShow, Lists;
    }
  }

  // -------------------------------------------------------- compact baselines

  ghost predicate AreKeys(raw: seq<Option<Case>>) {
    && (forall i | 0 <= i < |raw| :: raw[i].Some?)
    && (forall i, j | 0 <= i < j < |raw| :: raw[i] != raw[j])
  }

  predicate IsRecord(required: set<Case>, r: RawRecord) {
    r.RawRecord? && r.owner.Some? && r.owner.value in required && IsNamed(r.checkId)
  }

  ghost predicate AreRecords(required: set<Case>, raw: seq<RawRecord>) {
    && (forall i | 0 <= i < |raw| :: IsRecord(required, raw[i]))
    && (forall i, j | 0 <= i < j < |raw| :: raw[i] != raw[j])
  }

  lemma {:induction false} KeysRead(raw: seq<Option<Case>>)
    ensures var (cases, issues) := ReadCaseKeys(raw);
            && (issues == {} <==> AreKeys(raw))
            && (issues == {} ==> forall key :: key in cases <==> Some(key) in raw)
  {
    if raw != [] {
      var init, c := raw[..|raw| - 1], raw[|raw| - 1];
      KeysRead(init);
      assert raw == init + [c];
      assert AreKeys(raw) <==> AreKeys(init) && c.Some? && c !in init by {
        assert raw[|init|] == c && forall i | 0 <= i < |init| :: raw[i] == init[i];
      }
    }
  }

  /** What the reader makes of one bucket behind the checks read before. */
  ghost predicate IsReadOfBucket(
      required: set<Case>, before: Checks, success: bool, raw: seq<RawRecord>, checks: Checks, issues: set<Issue>) {
    && (issues == {} <==> AreRecords(required, raw) && forall id | RecordOf(id) in raw :: id !in before)
    && (issues == {} ==>
          forall id, s :: Holds(checks, id, s) <==> Holds(before, id, s) || (s == success && RecordOf(id) in raw))
  }

  lemma RecordsAppend(required: set<Case>, init: seq<RawRecord>, r: RawRecord)
    ensures AreRecords(required, init + [r]) <==> AreRecords(required, init) && IsRecord(required, r) && r !in init
  {
    hide IsRecord;
    var raw := init + [r];
    assert raw[|init|] == r && forall i | 0 <= i < |init| :: raw[i] == init[i];
  }

  lemma RecordIff(required: set<Case>, r: RawRecord)
    ensures ReadRecord(required, r).Some? <==> IsRecord(required, r)
    ensures IsRecord(required, r) ==> r == RecordOf(ReadRecord(required, r).value)
    ensures forall id :: r == RecordOf(id) && IsRecord(required, r) ==> ReadRecord(required, r) == Some(id)
  {
  }

  lemma RecordAdded(
      required: set<Case>, before: Checks, success: bool, init: seq<RawRecord>, id: Identity, checks: Checks,
      issues: set<Issue>)
    requires IsReadOfBucket(required, before, success, init, checks, issues) && IsRecord(required, RecordOf(id))
    ensures id in checks ==>
              IsReadOfBucket(required, before, success, init + [RecordOf(id)], checks, issues + {DuplicateCheck})
    ensures id !in checks ==>
              IsReadOfBucket(required, before, success, init + [RecordOf(id)], checks[id := success], issues)
  {
    hide IsRecord, AreRecords;
    var raw := init + [RecordOf(id)];
    RecordsAppend(required, init, RecordOf(id));
    assert RecordOf(id) in raw && forall r | r in init :: r in raw;
    assert id !in checks ==> !Holds(checks, id, success);
    assert id in checks <==> Holds(checks, id, true) || Holds(checks, id, false);
    assert id in before <==> Holds(before, id, true) || Holds(before, id, false);
    assert forall other :: RecordOf(other) in raw <==> RecordOf(other) in init || other == id by {
      assert forall other :: RecordOf(other) == RecordOf(id) ==> other == id;
    }
    if id !in checks && issues == {} {
      var next := checks[id := success];
      assert RecordOf(id) !in init;
      forall other, s
        ensures Holds(next, other, s) <==> Holds(before, other, s) || (s == success && RecordOf(other) in raw)
      {
        assert other != id ==> (Holds(next, other, s) <==> Holds(checks, other, s));
      }
    } else if id !in checks {
      assert forall other | RecordOf(other) in init :: RecordOf(other) in raw;
    }
  }

  lemma {:induction false} BucketRead(required: set<Case>, before: Checks, success: bool, raw: seq<RawRecord>)
    ensures var (checks, issues) := ReadRecords(required, before, success, raw);
            IsReadOfBucket(required, before, success, raw, checks, issues)
  {
    hide ReadRecord, IsRecord, AreRecords;
    if raw == [] {
      NoRecords(required);
    } else {
      var init, r := raw[..|raw| - 1], raw[|raw| - 1];
      BucketRead(required, before, success, init);
      assert raw == init + [r];
      RecordIff(required, r);
      var (checks, issues) := ReadRecords(required, before, success, init);
      var id := ReadRecord(required, r);
      if id.Some? {
        RecordAdded(required, before, success, init, id.value, checks, issues);
      } else {
        RecordsAppend(required, init, r);
      }
      hide IsReadOfBucket;
    }
  }

  lemma NoRecords(required: set<Case>)
    ensures AreRecords(required, [])
  {
  }

  // ------------------------------------------------------------------- reports

  /** The report holds this result of this check. */
  ghost predicate Shows(body: Body, id: Identity, success: bool) {
    match body
    case Full(cases, _) => cases.Some? && CasesShow(cases.value, id, success)
    case Compact(_, _, hasChecks, passing, failing) =>
      var records := if success then passing else failing;
      hasChecks && records.Some? && RecordOf(id) in records.value
  }

  ghost predicate ListsCase(body: Body, key: Case) {
    match body
    case Full(cases, _) => cases.Some? && Lists(cases.value, key)
    case Compact(_, requiredCases, _, _, _) => requiredCases.Some? && Some(key) in requiredCases.value
  }

  ghost predicate IsBody(required: set<Case>, body: Body) {
    match body
    case Full(cases, _) => cases.Some? && AreCases(required, cases.value)
    case Compact(kind, requiredCases, hasChecks, passing, failing) =>
      && kind == "mcp-review-regression-baseline-v1"
      && requiredCases.Some? && AreKeys(requiredCases.value)
      && hasChecks && passing.Some? && failing.Some?
      && AreRecords(required, passing.value) && AreRecords(required, failing.value)
      && forall id :: !(RecordOf(id) in passing.value && RecordOf(id) in failing.value)
  }

  ghost predicate Passes(body: Body, key: Case) {
    && (exists id: Identity :: id.owner == key && Shows(body, id, true))
    && forall id: Identity :: id.owner == key ==> !Shows(body, id, false)
  }

  ghost predicate AreTotals(
      required: set<Case>, r: Report, passing: set<Identity>, failing: set<Identity>, good: set<Case>) {
    && (forall id :: id in passing <==> Shows(r.body, id, true))
    && (forall id :: id in failing <==> Shows(r.body, id, false))
    && (forall key :: key in good <==> key in required && Passes(r.body, key))
    && r.summary == Some(Totals(|passing|, |failing|, |passing| + |failing|, |good|, |required|))
  }

  ghost predicate NothingFails(body: Body) {
    forall id :: !Shows(body, id, false)
  }

  /** Nothing is wrong with the report: its header, its cases and checks, its
      totals and, in a full report, its claim that nothing fails. */
  ghost predicate IsClean(required: set<Case>, r: Report) {
    && r.schemaVersion == 1
    && r.reviewer == "codex-mcp-regression-suite"
    && r.modes == ["2025-06-18", "2025-11-25", "2026-07-28"]
    && IsBody(required, r.body)
    && (forall key :: ListsCase(r.body, key) <==> key in required)
    && (exists passing, failing, good :: AreTotals(required, r, passing, failing, good))
    && (r.body.Full? ==> r.body.success == Some(required != {} && NothingFails(r.body)))
  }

  ghost predicate IsReadOfBody(required: set<Case>, body: Body, r: Reading) {
    && (r.issues == {} <==> IsBody(required, body))
    && (r.issues == {} ==>
          && (forall key :: key in r.cases <==> ListsCase(body, key))
          && forall id, s :: Holds(r.checks, id, s) <==> Shows(body, id, s))
  }

  lemma CompactRead(required: set<Case>, b: Body)
    requires b.Compact?
    ensures IsReadOfBody(required, b, ReadCompact(required, b))
  {
    hide ReadCaseKeys, ReadRecords, AreKeys, AreRecords, IsReadOfBucket;
    if b.requiredCases.Some? {
      KeysRead(b.requiredCases.value);
    }
    if b.hasChecks && b.passing.Some? && b.failing.Some? {
      var (passing, pi) := ReadRecords(required, map[], true, b.passing.value);
      var (checks, fi) := ReadRecords(required, passing, false, b.failing.value);
      BucketRead(required, map[], true, b.passing.value);
      BucketRead(required, passing, false, b.failing.value);
      BothBuckets(required, b.passing.value, b.failing.value, passing, pi, checks, fi);
    }
    hide Holds, RecordOf;
  }

  lemma BothBuckets(
      required: set<Case>, p: seq<RawRecord>, f: seq<RawRecord>, passing: Checks, pi: set<Issue>, checks: Checks,
      fi: set<Issue>)
    requires IsReadOfBucket(required, map[], true, p, passing, pi)
    requires IsReadOfBucket(required, passing, false, f, checks, fi)
    ensures pi == {} && fi == {} <==>
            AreRecords(required, p) && AreRecords(required, f) && forall id :: !(RecordOf(id) in p && RecordOf(id) in f)
    ensures pi == {} && fi == {} ==>
            forall id, s :: Holds(checks, id, s) <==> RecordOf(id) in if s then p else f
  {
    hide AreRecords, RecordOf;
    if pi == {} {
      assert forall id, s :: !Holds(map[], id, s);
      assert forall id :: id in passing <==> Holds(passing, id, true) || Holds(passing, id, false);
    }
  }

  lemma BodyRead(required: set<Case>, body: Body)
    ensures IsReadOfBody(required, body, ReadBody(required, body))
  {
    hide ReadCompact, ReadCases, AreCases, CasesShow, Lists, Holds;
    if body.Compact? {
      CompactRead(required, body);
    } else if body.cases.Some? {
      CasesRead(required, body.cases.value);
    }
  }

  lemma CountsAre(checks: Checks, cases: set<Case>, body: Body)
    requires forall id, s :: Holds(checks, id, s) <==> Shows(body, id, s)
    ensures var passing, failing := WithResult(checks, true), WithResult(checks, false);
            var good := set key | key in cases && CasePasses(checks, key);
            && (forall id :: id in passing <==> Shows(body, id, true))
            && (forall id :: id in failing <==> Shows(body, id, false))
            && (forall key :: key in good <==> key in cases && Passes(body, key))
            && Count(checks, cases)
               == Totals(|passing|, |failing|, |passing| + |failing|, |good|, |cases|)
  {
    hide Shows;
    var passing, failing := WithResult(checks, true), WithResult(checks, false);
    forall id
      ensures id in passing <==> Shows(body, id, true)
      ensures id in failing <==> Shows(body, id, false)
    {
      assert Holds(checks, id, true) <==> Shows(body, id, true);
      assert Holds(checks, id, false) <==> Shows(body, id, false);
    }
    assert passing == set id | id in checks && checks[id];
    assert checks.Keys == passing + failing && passing !! failing;
    forall key
      ensures CasePasses(checks, key) <==> Passes(body, key)
    {
      CasePassesIff(checks, key, body);
    }
  }

  lemma CasePassesIff(checks: Checks, key: Case, body: Body)
    requires forall id, s :: Holds(checks, id, s) <==> Shows(body, id, s)
    ensures CasePasses(checks, key) <==> Passes(body, key)
  {
    hide Shows;
    forall id
      ensures id in checks <==> Shows(body, id, true) || Shows(body, id, false)
      ensures id in checks ==> (checks[id] <==> Shows(body, id, true)) && (!checks[id] <==> Shows(body, id, false))
    {
      assert Holds(checks, id, true) <==> Shows(body, id, true);
      assert Holds(checks, id, false) <==> Shows(body, id, false);
    }
  }

  lemma TotalsIff(required: set<Case>, r: Report, checks: Checks)
    requires forall id, s :: Holds(checks, id, s) <==> Shows(r.body, id, s)
    ensures r.summary == Some(Count(checks, required)) <==>
            exists passing, failing, good :: AreTotals(required, r, passing, failing, good)
  {
    hide Shows, Passes, Count, CasePasses, WithResult;
    CountsAre(checks, required, r.body);
    var passing, failing := WithResult(checks, true), WithResult(checks, false);
    var good := set key | key in required && CasePasses(checks, key);
    if r.summary == Some(Count(checks, required)) {
      assert AreTotals(required, r, passing, failing, good);
    }
    forall p, f, g | AreTotals(required, r, p, f, g)
      ensures p == passing && f == failing && g == good
    {
    }
  }

  lemma CasesListed(required: set<Case>, body: Body, cases: set<Case>)
    requires forall key :: key in cases <==> ListsCase(body, key)
    ensures cases == required <==> forall key :: ListsCase(body, key) <==> key in required
  {
    hide ListsCase;
  }

  lemma FailedIsZero(checks: Checks, cases: set<Case>, body: Body)
    requires forall id, s :: Holds(checks, id, s) <==> Shows(body, id, s)
    ensures Count(checks, cases).failed == 0 <==> NothingFails(body)
  {
    hide Shows, Count;
    CountsAre(checks, cases, body);
  }

  /** Reading finds nothing wrong with exactly the clean reports, and then holds
      exactly their results. */
  lemma CleanReportIsRead(required: set<Case>, r: Report)
    ensures Read(required, r).issues == {} <==> IsClean(required, r)
    ensures IsClean(required, r) ==> forall id, s :: Holds(Read(required, r).checks, id, s) <==> Shows(r.body, id, s)
  {
    hide ReadBody, Count, IsBody, ListsCase, Shows, AreTotals, HeaderIssues, ClosingIssues, NothingFails;
    var reading := ReadBody(required, r.body);
    BodyRead(required, r.body);
    HeaderIff(r);
    assert Read(required, r).issues == {} <==>
           HeaderIssues(r) == {} && reading.issues == {} && ClosingIssues(required, r, reading) == {};
    if reading.issues == {} {
      CasesListed(required, r.body, reading.cases);
      ClosedIff(required, r, reading);
      if reading.cases == required {
        TotalsIff(required, r, reading.checks);
        FailedIsZero(reading.checks, required, r.body);
      }
    }
  }

  lemma HeaderIff(r: Report)
    ensures HeaderIssues(r) == {} <==>
            && r.schemaVersion == 1 && r.reviewer == "codex-mcp-regression-suite"
            && r.modes == ["2025-06-18", "2025-11-25", "2026-07-28"]
  {
  }

  lemma ClosedIff(required: set<Case>, r: Report, reading: Reading)
    ensures ClosingIssues(required, r, reading) == {} <==>
            && reading.cases == required
            && r.summary == Some(Count(reading.checks, reading.cases))
            && (r.body.Full? ==>
                  r.body.success == Some(reading.cases != {} && Count(reading.checks, reading.cases).failed == 0))
  {
    hide Count;
    var closing := ClosingIssues(required, r, reading);
    assert forall c :: c in required && c !in reading.cases ==> CaseMissing(c) in closing;
    assert forall c :: c in reading.cases && c !in required ==> CaseUnexpected(c) in closing;
  }

  // ---------------------------------------------------------------------- gate

  /** The gate succeeds for exactly two clean reports where every check that
      fails failed before and no check is gone. */
  lemma GateSucceedsForReports(required: set<Case>, candidate: Report, baseline: Report)
    ensures Evaluate(required, candidate, baseline).Success() <==>
            && IsClean(required, candidate) && IsClean(required, baseline)
            && (forall id :: Shows(candidate.body, id, false) ==> Shows(baseline.body, id, false))
            && forall id, s | Shows(baseline.body, id, s) ::
                 Shows(candidate.body, id, true) || Shows(candidate.body, id, false)
  {
    hide Read, IsClean, Shows, Evaluate;
    CleanReportIsRead(required, candidate);
    CleanReportIsRead(required, baseline);
    GateSucceedsIff(required, candidate, baseline);
    if IsClean(required, candidate) && IsClean(required, baseline) {
      var c, b := Read(required, candidate).checks, Read(required, baseline).checks;
      ResultsAre(c, candidate.body);
      ResultsAre(b, baseline.body);
    }
  }

  lemma ResultsAre(checks: Checks, body: Body)
    requires forall id, s :: Holds(checks, id, s) <==> Shows(body, id, s)
    ensures forall id :: id in checks <==> Shows(body, id, true) || Shows(body, id, false)
    ensures forall id :: Fails(checks, id) <==> Shows(body, id, false)
  {
    hide Shows;
    forall id
      ensures id in checks <==> Shows(body, id, true) || Shows(body, id, false)
      ensures Fails(checks, id) <==> Shows(body, id, false)
    {
      assert Holds(checks, id, true) <==> Shows(body, id, true);
      assert Holds(checks, id, false) <==> Shows(body, id, false);
    }
  }

  /** The four lists of the gate for clean reports. */
  lemma GateListsForReports(required: set<Case>, candidate: Report, baseline: Report, id: Identity)
    requires IsClean(required, candidate) && IsClean(required, baseline)
    ensures var gate := Evaluate(required, candidate, baseline);
            var fails, failed := Shows(candidate.body, id, false), Shows(baseline.body, id, false);
            var is_, was := fails || Shows(candidate.body, id, true), failed || Shows(baseline.body, id, true);
            && (id in gate.knownFailures <==> fails && failed)
            && (id in gate.newFailures <==> fails && !failed)
            && (id in gate.missingChecks <==> was && !is_)
            && (id in gate.fixedChecks <==> failed && is_ && !fails)
  {
    hide Read, IsClean, Shows;
    CleanReportIsRead(required, candidate);
    CleanReportIsRead(required, baseline);
    ResultsAre(Read(required, candidate).checks, candidate.body);
    ResultsAre(Read(required, baseline).checks, baseline.body);
  }
}

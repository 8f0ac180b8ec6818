/**
 * The test matrix of a workspace (frontend/src/pages/PromptTester.tsx): one
 * row per test case, one column per active config, and in each cell one
 * result per compared prompt version, or a Run button. The handlers call the
 * service and fold its replies into the component's state; a reply is a
 * parameter here, None when the call rejects.
 */
module PromptTester {
  import opened Wrappers
  import opened Seqs
  import opened EvalTypes
  import opened Proto
  import opened ClientTypes
  import TestCases

  // ---------------------------------------------------------------------------
  // Cells

  /** A result belongs in the cell of (test case, config, version). */
  function ResultFor(caseId: string, configId: string, version: u32): TestResultMsg -> bool {
    (r: TestResultMsg) => r.testCaseId == caseId && r.workspaceConfigId == configId && r.promptVersionNumber == version
  }

  /** What a cell shows: a result with its rating buttons, or the Run button of its version. */
  datatype Cell = Shows(result: TestResultMsg) | RunButton(versionNumber: u32)

  /**
   * The cell of (test case, config, version): the FIRST result in the list
   * that belongs there (`testResults.find`), else the Run button.
   */
  function CellAt(results: seq<TestResultMsg>, caseId: string, configId: string, version: u32): (c: Cell)
    ensures c.Shows? ==> c.result in results && ResultFor(caseId, configId, version)(c.result)
    ensures c.RunButton? <==> forall i :: 0 <= i < |results| ==> !ResultFor(caseId, configId, version)(results[i])
    ensures c.RunButton? ==> c.versionNumber == version
  {
    match FindFirst(results, ResultFor(caseId, configId, version))
    case None => RunButton(version)
    case Some(i) => Shows(results[i])
  }

  /**
   * Appending results never changes a cell that already shows one (the first
   * match wins), and a cell with a Run button shows the first new result that
   * belongs there.
   */
  lemma CellAppend(results: seq<TestResultMsg>, more: seq<TestResultMsg>, caseId: string, configId: string, version: u32)
    ensures CellAt(results, caseId, configId, version).Shows? ==>
      CellAt(results + more, caseId, configId, version) == CellAt(results, caseId, configId, version)
    ensures CellAt(results, caseId, configId, version).RunButton? ==>
      CellAt(results + more, caseId, configId, version) == CellAt(more, caseId, configId, version)
  {
    var p := ResultFor(caseId, configId, version);
    match FindFirst(results, p)
    case Some(i) =>
      FindFirstAppendLeft(results, more, p, i);
      assert (results + more)[i] == results[i];
    case None =>
      FindFirstAppendRight(results, more, p);
      if FindFirst(more, p).Some? {
        var k := FindFirst(more, p).value;
        assert (results + more)[|results| + k] == more[k];
      }
  }

  /**
   * The thumbs buttons of a shown result (line 60-68): the result object in
   * the list is given the rating in place.
   */
  function Rated(results: seq<TestResultMsg>, caseId: string, configId: string, version: u32, rating: i32): (r: seq<TestResultMsg>)
    ensures |r| == |results|
  {
    match FindFirst(results, ResultFor(caseId, configId, version))
    case None => results
    case Some(i) => results[i := results[i].(rating := rating)]
  }

  /** After rating, the same cell shows the same result, now with that rating, and every other result is untouched. */
  lemma RatedCell(results: seq<TestResultMsg>, caseId: string, configId: string, version: u32, rating: i32)
    requires CellAt(results, caseId, configId, version).Shows?
    ensures CellAt(Rated(results, caseId, configId, version, rating), caseId, configId, version)
      == Shows(CellAt(results, caseId, configId, version).result.(rating := rating))
    ensures forall j :: 0 <= j < |results| && results[j] != CellAt(results, caseId, configId, version).result ==>
      Rated(results, caseId, configId, version, rating)[j] == results[j]
  {
    var p := ResultFor(caseId, configId, version);
    var i := FindFirst(results, p).value;
    var r := Rated(results, caseId, configId, version, rating);
    assert p(r[i]);
    assert forall j :: 0 <= j < i ==> r[j] == results[j];
    FindFirstAt(r, p, i);
  }

  // ---------------------------------------------------------------------------
  // Export

  /** A test case as exported: its own fields and the results nested under it. */
  datatype ExportedCase = ExportedCase(testCase: TestCaseMsg, results: seq<TestResultMsg>)

  datatype ExportData = ExportData(workspaceId: string, variables: seq<ProtoVariable>, testCases: seq<ExportedCase>)

  function ConfigIds(configs: seq<ConfigMsg>): (r: seq<string>)
    ensures forall id :: id in r <==> exists c :: c in configs && c.id == id
  {
    var r := seq(|configs|, i requires 0 <= i < |configs| => configs[i].id);
    assert forall c :: c in configs ==> exists i :: 0 <= i < |configs| && configs[i] == c && r[i] == c.id;
    r
  }

  function OfCase(caseId: string): TestResultMsg -> bool {
    (r: TestResultMsg) => r.testCaseId == caseId
  }

  function FromConfigs(ids: seq<string>): TestResultMsg -> bool {
    (r: TestResultMsg) => r.workspaceConfigId in ids
  }

  /** The results exported under a test case (line 224): its results, then only those of an active config. */
  function ExportedResults(results: seq<TestResultMsg>, caseId: string, configs: seq<ConfigMsg>): seq<TestResultMsg> {
    Filter(Filter(results, OfCase(caseId)), FromConfigs(ConfigIds(configs)))
  }

  /** `handleExportToYAML`'s data: every test case, in order, with its exported results. */
  function Export(workspaceId: string, variables: seq<ProtoVariable>, cases: seq<TestCaseMsg>,
                  results: seq<TestResultMsg>, configs: seq<ConfigMsg>): (d: ExportData)
    ensures |d.testCases| == |cases|
    ensures forall k :: 0 <= k < |cases| ==> d.testCases[k].testCase == cases[k]
  {
    ExportData(workspaceId, variables,
      seq(|cases|, k requires 0 <= k < |cases| => ExportedCase(cases[k], ExportedResults(results, cases[k].id, configs))))
  }

  /**
   * A result is exported under a test case exactly when it is that case's and
   * comes from an active config, whatever prompt version produced it.
   */
  lemma ExportedResultsMembers(results: seq<TestResultMsg>, caseId: string, configs: seq<ConfigMsg>, r: TestResultMsg)
    ensures r in ExportedResults(results, caseId, configs) <==>
      r in results && r.testCaseId == caseId && exists c :: c in configs && c.id == r.workspaceConfigId
  {
    FilterMembers(results, OfCase(caseId));
    FilterMembers(Filter(results, OfCase(caseId)), FromConfigs(ConfigIds(configs)));
  }

  // ---------------------------------------------------------------------------
  // Import

  /**
   * A value read from the YAML file: a string, null (`NAME:` with nothing
   * after it, or `~`), or anything else (a number, a boolean, a list...).
   */
  datatype YamlValue = YStr(text: string) | YNull | YOther

  /** One record of the file: its keys and values in `Object.entries` order. */
  type YamlRecord = seq<(string, YamlValue)>

  /** The base64 decoding `VariableValue.fromJson` applies to an `imageValue`; None when the text is not base64. */
  type Base64 = string -> Option<seq<byte>>

  function VariableNamed(name: string): ProtoVariable -> bool {
    (v: ProtoVariable) => v.name == name
  }

  /**
   * The wire value of one YAML value for a variable: text for a TEXT
   * variable, decoded bytes for an IMAGE one. Under the proto3 JSON mapping
   * `fromJson` reads null as a field that is not set, so the value is unset;
   * it throws (None here) on anything else that is not a string, and on a
   * string that is not base64.
   */
  function Converted(v: ProtoVariable, value: YamlValue, decode: Base64): Option<ProtoValue> {
    match value
    case YNull => Some(Unset)
    case YOther => None
    case YStr(text) =>
      if v.varType == TEXT then Some(TextValue(text))
      else match decode(text)
        case None => None
        case Some(bytes) => Some(ImageValue(bytes))
  }

  /**
   * The values of one record (line 300-315): each key naming a variable (the
   * first with that name) is converted, other keys are skipped; None when a
   * conversion throws.
   */
  function RecordValues(variables: seq<ProtoVariable>, record: YamlRecord, decode: Base64): Option<map<string, ProtoValue>>
    decreases |record|
  {
    if record == [] then Some(map[])
    else
      var (key, value) := record[|record| - 1];
      match RecordValues(variables, record[..|record| - 1], decode)
      case None => None
      case Some(m) =>
        match First(variables, VariableNamed(key))
        case None => Some(m)
        case Some(v) =>
          match Converted(v, value, decode)
          case None => None
          case Some(pv) => Some(m[key := pv])
  }

  /** The key of an entry names a variable whose conversion of the entry's value throws. */
  predicate Throws(variables: seq<ProtoVariable>, entry: (string, YamlValue), decode: Base64) {
    First(variables, VariableNamed(entry.0)).Some? && Converted(First(variables, VariableNamed(entry.0)).value, entry.1, decode).None?
  }

  /** A null under a variable's name does not throw: the variable is set to an unset value. */
  lemma NullImportsUnset(variables: seq<ProtoVariable>, record: YamlRecord, decode: Base64, key: string)
    requires First(variables, VariableNamed(key)).Some? && RecordValues(variables, record, decode).Some?
    ensures RecordValues(variables, record + [(key, YNull)], decode) == Some(RecordValues(variables, record, decode).value[key := Unset])
  {
    assert (record + [(key, YNull)])[..|record|] == record;
  }

  /** A record's values fail exactly when one of its entries throws. */
  lemma {:induction false} RecordValuesFail(variables: seq<ProtoVariable>, record: YamlRecord, decode: Base64)
    ensures RecordValues(variables, record, decode).None? <==> exists i :: 0 <= i < |record| && Throws(variables, record[i], decode)
    decreases |record|
  {
    if record != [] {
      var n := |record| - 1;
      var init := record[..n];
      RecordValuesFail(variables, init, decode);
      assert forall i :: 0 <= i < n ==> init[i] == record[i];
    }
  }

  /** The keys of a record's values are exactly its keys that name a variable. */
  lemma {:induction false} RecordValuesKeys(variables: seq<ProtoVariable>, record: YamlRecord, decode: Base64, key: string)
    requires RecordValues(variables, record, decode).Some?
    ensures key in RecordValues(variables, record, decode).value <==>
      First(variables, VariableNamed(key)).Some? && exists i :: 0 <= i < |record| && record[i].0 == key
    decreases |record|
  {
    if record != [] {
      var n := |record| - 1;
      var init := record[..n];
      RecordValuesKeys(variables, init, decode, key);
      assert forall i :: 0 <= i < n ==> init[i] == record[i];
    }
  }

  /** A key's value is its last entry's, converted for the first variable of that name. */
  lemma {:induction false} RecordValuesLast(variables: seq<ProtoVariable>, record: YamlRecord, decode: Base64, i: nat)
    requires RecordValues(variables, record, decode).Some?
    requires i < |record| && First(variables, VariableNamed(record[i].0)).Some?
    requires forall j :: i < j < |record| ==> record[j].0 != record[i].0
    ensures record[i].0 in RecordValues(variables, record, decode).value
    ensures Some(RecordValues(variables, record, decode).value[record[i].0])
      == Converted(First(variables, VariableNamed(record[i].0)).value, record[i].1, decode)
    decreases |record|
  {
    var n := |record| - 1;
    if i < n {
      var init := record[..n];
      assert init[i] == record[i];
      forall j | i < j < |init| ensures init[j].0 != init[i].0 {
        assert init[j] == record[j];
      }
      RecordValuesLast(variables, init, decode, i);
    }
  }

  predicate RecordThrows(variables: seq<ProtoVariable>, decode: Base64, record: YamlRecord) {
    RecordValues(variables, record, decode).None?
  }

  function Throwing(variables: seq<ProtoVariable>, decode: Base64): YamlRecord -> bool {
    (record: YamlRecord) => RecordThrows(variables, decode, record)
  }

  /**
   * The create requests of an import, in order: one per record up to the
   * first record that throws, where the whole import stops.
   */
  function ImportRequests(variables: seq<ProtoVariable>, records: seq<YamlRecord>, decode: Base64): (r: seq<map<string, ProtoValue>>)
    ensures |r| <= |records|
    ensures forall j :: 0 <= j < |r| ==> RecordValues(variables, records[j], decode) == Some(r[j])
    ensures |r| < |records| ==> RecordValues(variables, records[|r|], decode).None?
  {
    var k := match FindFirst(records, Throwing(variables, decode)) case None => |records| case Some(i) => i;
    seq(k, j requires 0 <= j < k => RecordValues(variables, records[j], decode).value)
  }

  /** The reply to the j-th create; a missing one counts as a rejection. */
  function ReplyAt(replies: seq<Option<TestCaseMsg>>, j: nat): Option<TestCaseMsg> {
    if j < |replies| then replies[j] else None
  }

  /** The cases created by the first `n` creates, in order: the rejected ones are logged and skipped. */
  function Created(replies: seq<Option<TestCaseMsg>>, n: nat): (r: seq<TestCaseMsg>)
    ensures |r| <= n
    decreases n
  {
    if n == 0 then []
    else Created(replies, n - 1) + (match ReplyAt(replies, n - 1) case None => [] case Some(tc) => [tc])
  }

  /** Every created case answers some create, and every create that succeeds adds its case. */
  lemma {:induction false} CreatedMembers(replies: seq<Option<TestCaseMsg>>, n: nat, tc: TestCaseMsg)
    ensures tc in Created(replies, n) <==> exists j :: 0 <= j < n && ReplyAt(replies, j) == Some(tc)
    decreases n
  {
    if n > 0 {
      CreatedMembers(replies, n - 1, tc);
    }
  }

  // ---------------------------------------------------------------------------
  // Test-case edits

  function CaseIs(caseId: string): TestCaseMsg -> bool {
    (tc: TestCaseMsg) => tc.id == caseId
  }

  function NotCase(caseId: string): TestCaseMsg -> bool {
    (tc: TestCaseMsg) => tc.id != caseId
  }

  /** `handleRunTest` puts back the row it was given for every row with that id. */
  lemma RunTestKeepsRows(cases: seq<TestCaseMsg>, testCase: TestCaseMsg)
    requires forall k :: 0 <= k < |cases| && cases[k].id == testCase.id ==> cases[k] == testCase
    ensures ReplaceWhere(cases, CaseIs(testCase.id), testCase) == cases
  {
  }

  /** `handleVariableValueChange`: the value of one variable in the cases with that id. */
  function EditedValue(cases: seq<TestCaseMsg>, caseId: string, name: string, value: ProtoValue): (r: seq<TestCaseMsg>)
    ensures |r| == |cases|
  {
    seq(|cases|, k requires 0 <= k < |cases| =>
      if cases[k].id == caseId then cases[k].(values := cases[k].values[name := value]) else cases[k])
  }

  /**
   * An edit changes only that variable of the cases with that id: every
   * other case, every other value and every other field stay as they were.
   */
  lemma EditedValueOnly(cases: seq<TestCaseMsg>, caseId: string, name: string, value: ProtoValue)
    ensures var r := EditedValue(cases, caseId, name, value);
      forall k :: 0 <= k < |cases| ==>
        && r[k].id == cases[k].id && r[k].workspaceId == cases[k].workspaceId
        && r[k].hasBeenEvaluated == cases[k].hasBeenEvaluated
        && (cases[k].id != caseId ==> r[k] == cases[k])
        && (cases[k].id == caseId ==> r[k].values[name] == value)
        && (forall n :: n != name ==> (n in r[k].values <==> n in cases[k].values))
        && (forall n :: n != name && n in cases[k].values ==> r[k].values[n] == cases[k].values[n])
  {
  }

  /** Of two edits of the same variable, the later one wins. */
  lemma EditedValueLastWins(cases: seq<TestCaseMsg>, caseId: string, name: string, first: ProtoValue, second: ProtoValue)
    ensures EditedValue(EditedValue(cases, caseId, name, first), caseId, name, second) == EditedValue(cases, caseId, name, second)
  {
    var a := EditedValue(EditedValue(cases, caseId, name, first), caseId, name, second);
    var b := EditedValue(cases, caseId, name, second);
    forall k | 0 <= k < |cases| ensures a[k] == b[k] {
      if cases[k].id == caseId {
        assert a[k].values == b[k].values;
      }
    }
  }

  /** Delete removes exactly the cases with that id. */
  lemma DeleteMembers(cases: seq<TestCaseMsg>, caseId: string)
    ensures forall tc :: tc in Filter(cases, NotCase(caseId)) <==> tc in cases && tc.id != caseId
  {
    FilterMembers(cases, NotCase(caseId));
  }

  // ---------------------------------------------------------------------------
  // Synthetic generation

  /** Some result names the case. */
  predicate Mentioned(results: seq<TestResultMsg>, caseId: string) {
    exists i :: 0 <= i < |results| && results[i].testCaseId == caseId
  }

  /** No earlier row has the same id (`findIndex` only ever reaches this row). */
  predicate FirstOfId(cases: seq<TestCaseMsg>, k: nat)
    requires k < |cases|
  {
    forall j :: 0 <= j < k ==> cases[j].id != cases[k].id
  }

  /** The rows after synthetic generation (line 373-386): the first row of each id some result names is marked evaluated. */
  function Marked(cases: seq<TestCaseMsg>, results: seq<TestResultMsg>): (r: seq<TestCaseMsg>)
    ensures |r| == |cases|
  {
    seq(|cases|, k requires 0 <= k < |cases| =>
      if FirstOfId(cases, k) && Mentioned(results, cases[k].id) then cases[k].(hasBeenEvaluated := true) else cases[k])
  }

  /**
   * With distinct ids, a row ends up evaluated exactly when it was or some
   * result names it; nothing else about any row changes.
   */
  lemma MarkedSpec(cases: seq<TestCaseMsg>, results: seq<TestResultMsg>)
    requires forall i, j :: 0 <= i < j < |cases| ==> cases[i].id != cases[j].id
    ensures forall k :: 0 <= k < |cases| ==>
      && (Marked(cases, results)[k].hasBeenEvaluated <==> cases[k].hasBeenEvaluated || Mentioned(results, cases[k].id))
      && Marked(cases, results)[k] == cases[k].(hasBeenEvaluated := Marked(cases, results)[k].hasBeenEvaluated)
  {
  }

  /** Only rows some result names can change. */
  lemma MarkedOnlyMentioned(cases: seq<TestCaseMsg>, results: seq<TestResultMsg>, k: nat)
    requires k < |cases| && !Mentioned(results, cases[k].id)
    ensures Marked(cases, results)[k] == cases[k]
  {
  }

  /** The request `handleGenerateTestCase` sends; the seed prompt only when non-empty. */
  datatype GenerateRequest = GenerateRequest(versionNumber: Option<u32>, workspaceId: string, nTestCases: int, seedPrompt: Option<string>)

  // ---------------------------------------------------------------------------
  // Paging

  /** `Math.ceil(t / p)` for a positive page size. */
  function CeilDiv(t: int, p: int): (r: int)
    requires p > 0
    ensures (r - 1) * p < t <= r * p
  {
    var q := (-t) / p;
    assert -t == q * p + (-t) % p;
    -q
  }

  /** The page sizes the select offers. */
  predicate PageSize(n: int) {
    n == 5 || n == 10 || n == 20 || n == 50 || n == 100
  }

  /** Previous is enabled except on page 1. */
  predicate PrevEnabled(currentPage: int) {
    currentPage != 1
  }

  /** Next is enabled except on the last page. */
  predicate NextEnabled(currentPage: int, totalPages: int) {
    currentPage != totalPages
  }

  /** From page 1, pressing Next while enabled never passes the last page, as long as there is one. */
  lemma NextStaysInRange(currentPage: int, totalPages: int)
    requires 1 <= currentPage <= totalPages && NextEnabled(currentPage, totalPages)
    ensures currentPage + 1 <= totalPages
  {
  }

  /** With no test cases there are no pages, and Next stays enabled on every page from 1 on. */
  lemma NoPagesNextEnabled(pageSize: int, currentPage: int)
    requires pageSize > 0 && currentPage >= 1
    ensures CeilDiv(0, pageSize) == 0
    ensures NextEnabled(currentPage, CeilDiv(0, pageSize))
  {
  }

  // ---------------------------------------------------------------------------
  // Expanded row

  /** `handleExpandRow`: clicking the expanded row collapses it, any other row becomes the expanded one. */
  function Expanded(expandedRow: int, row: nat): (r: int)
    ensures r == -1 <==> expandedRow == row
    ensures r != -1 ==> r == row
  {
    if expandedRow == row then -1 else row
  }

  /** Clicking the same row twice gives back the state before, when that row or no row was expanded. */
  lemma ExpandedTwice(expandedRow: int, row: nat)
    requires expandedRow == -1 || expandedRow == row
    ensures Expanded(Expanded(expandedRow, row), row) == expandedRow
  {
  }

  // ---------------------------------------------------------------------------
  // The component's state

  /** The component's state: one field per `useState`. */
  datatype TesterState = TesterState(
    testCases: seq<TestCaseMsg>, testResults: seq<TestResultMsg>,
    variables: seq<ProtoVariable>, activeConfigs: seq<ConfigMsg>,
    expandedRowNumber: int, currentPage: int, itemsPerPage: int, totalPages: int,
    seedPrompt: string)

  function IsActive(c: ConfigMsg): bool { c.active }

  /** Building the values of one record (line 300-315). */
  method BuildValues(variables: seq<ProtoVariable>, record: YamlRecord, decode: Base64) returns (values: Option<map<string, ProtoValue>>)
    ensures values == RecordValues(variables, record, decode)
  {
    var m: map<string, ProtoValue> := map[];
    for j := 0 to |record|
      invariant RecordValues(variables, record[..j], decode) == Some(m)
    {
      assert record[..j + 1][..j] == record[..j];
      var (key, value) := record[j];
      var variable := First(variables, VariableNamed(key));
      if variable.Some? {
        var converted := Converted(variable.value, value, decode);
        if converted.None? {
          RecordValuesFail(variables, record, decode);
          RecordValuesFail(variables, record[..j + 1], decode);
          assert Throws(variables, record[..j + 1][j], decode);
          return None;
        }
        m := m[key := converted.value];
      }
    }
    assert record[..|record|] == record;
    values := Some(m);
  }

  /**
   * The record loop of `handleImportYAML` (line 296-329): the create requests
   * it sends and the cases the resolved ones add, in order.
   */
  method ImportAll(variables: seq<ProtoVariable>, records: seq<YamlRecord>, decode: Base64, replies: seq<Option<TestCaseMsg>>)
    returns (requests: seq<map<string, ProtoValue>>, created: seq<TestCaseMsg>)
    ensures requests == ImportRequests(variables, records, decode)
    ensures created == Created(replies, |requests|)
  {
    requests := [];
    created := [];
    ghost var expected := ImportRequests(variables, records, decode);
    for i := 0 to |records|
      invariant i <= |expected| && requests == expected[..i]
      invariant created == Created(replies, i)
    {
      var values := BuildValues(variables, records[i], decode);
      if values.None? {
        assert |expected| == i;
        return;
      }
      assert i < |expected|;
      requests := requests + [values.value];
      assert requests == expected[..i + 1];
      var reply := ReplyAt(replies, i);
      if reply.Some? {
        created := created + [reply.value];
      }
    }
    assert |expected| == |records|;
  }

  class Tester {
    const workspaceId: string
    var testCases: seq<TestCaseMsg>
    var testResults: seq<TestResultMsg>
    var variables: seq<ProtoVariable>
    var activeConfigs: seq<ConfigMsg>
    var expandedRowNumber: int
    var currentPage: int
    var itemsPerPage: int
    var totalPages: int
    var seedPrompt: string

    function State(): TesterState
      reads this
    {
      TesterState(testCases, testResults, variables, activeConfigs, expandedRowNumber,
        currentPage, itemsPerPage, totalPages, seedPrompt)
    }

    /** The page size is one the select offers, and the page counter starts at 1. */
    predicate Valid()
      reads this
    {
      PageSize(itemsPerPage) && currentPage >= 1 && expandedRowNumber >= -1
    }

    constructor(workspaceId: string)
      ensures this.workspaceId == workspaceId
      ensures State() == TesterState([], [], [], [], -1, 1, 10, 1, "")
      ensures Valid()
    {
      this.workspaceId := workspaceId;
      testCases := [];
      testResults := [];
      variables := [];
      activeConfigs := [];
      expandedRowNumber := -1;
      currentPage := 1;
      itemsPerPage := 10;
      totalPages := 1;
      seedPrompt := "";
    }

    /** `fetchTestCases` once ListTestCases settles: the page replaces the lists, and the page count is recomputed. */
    method FetchTestCases(reply: Option<TestCases.CaseList>)
      requires Valid()
      modifies this
      ensures Valid()
      ensures State() == if reply.None? then old(State()) else
        old(State()).(testCases := reply.value.testCases, testResults := reply.value.testResults,
          totalPages := CeilDiv(reply.value.totalCount, itemsPerPage))
    {
      if reply.Some? {
        testCases := reply.value.testCases;
        testResults := reply.value.testResults;
        totalPages := CeilDiv(reply.value.totalCount, itemsPerPage);
      }
    }

    /** `handlePageChange`, followed by the fetch its effect runs. */
    method HandlePageChange(newPage: int, reply: Option<TestCases.CaseList>)
      requires Valid() && newPage >= 1
      modifies this
      ensures Valid()
      ensures State() == if reply.None? then old(State()).(currentPage := newPage) else
        old(State()).(currentPage := newPage, testCases := reply.value.testCases, testResults := reply.value.testResults,
          totalPages := CeilDiv(reply.value.totalCount, old(itemsPerPage)))
    {
      currentPage := newPage;
      FetchTestCases(reply);
    }

    /** `handleItemsPerPageChange`: a new page size sends the table back to page 1, then the effect fetches. */
    method HandleItemsPerPageChange(n: int, reply: Option<TestCases.CaseList>)
      requires Valid() && PageSize(n)
      modifies this
      ensures Valid()
      ensures State() == if reply.None? then old(State()).(itemsPerPage := n, currentPage := 1) else
        old(State()).(itemsPerPage := n, currentPage := 1, testCases := reply.value.testCases,
          testResults := reply.value.testResults, totalPages := CeilDiv(reply.value.totalCount, n))
    {
      itemsPerPage := n;
      currentPage := 1;
      FetchTestCases(reply);
    }

    /**
     * The effect on a new `version` prop (line 199-208): its variables, and
     * the workspace's configs flagged active, replace the local lists when
     * they are there.
     */
    method SyncVersion(version: Option<PromptView>, workspace: Option<WorkspaceView>)
      modifies this
      ensures State() == old(State()).(
        variables := if version.Some? then version.value.variables else old(variables),
        activeConfigs := if workspace.Some? then Filter(workspace.value.configs, IsActive) else old(activeConfigs))
    {
      if version.Some? {
        variables := version.value.variables;
      }
      if workspace.Some? {
        activeConfigs := Filter(workspace.value.configs, IsActive);
      }
    }

    /** The config dialog's `onConfigsChange`, wired straight to the local list. */
    method SetActiveConfigs(configs: seq<ConfigMsg>)
      modifies this
      ensures State() == old(State()).(activeConfigs := configs)
    {
      activeConfigs := configs;
    }

    /** `handleExpandRow` of the row at `row`. */
    method HandleExpandRow(row: nat)
      requires Valid()
      modifies this
      ensures Valid()
      ensures State() == old(State()).(expandedRowNumber := Expanded(old(expandedRowNumber), row))
    {
      if expandedRowNumber == row {
        expandedRowNumber := -1;
        return;
      }
      expandedRowNumber := row;
    }

    /** The data `handleExportToYAML` dumps. */
    method ExportToYAML() returns (d: ExportData)
      ensures d == Export(workspaceId, variables, testCases, testResults, activeConfigs)
    {
      d := Export(workspaceId, variables, testCases, testResults, activeConfigs);
    }

    /**
     * `handleRunTest` of a row: the returned results are appended when the
     * call resolves; either way every row with that id is set back to the
     * row passed in, and no row is marked evaluated.
     */
    method HandleRunTest(testCase: TestCaseMsg, reply: Option<seq<TestResultMsg>>)
      modifies this
      ensures State() == old(State()).(
        testResults := if reply.Some? then old(testResults) + reply.value else old(testResults),
        testCases := ReplaceWhere(old(testCases), CaseIs(testCase.id), testCase))
    {
      if reply.Some? {
        testResults := testResults + reply.value;
      }
      testCases := ReplaceWhere(testCases, CaseIs(testCase.id), testCase);
    }

    /** A thumbs button of a shown result: the rating request goes out and the result is rated in place. */
    method HandleRating(caseId: string, configId: string, version: u32, up: bool) returns (testResultId: string, rating: i32)
      requires CellAt(testResults, caseId, configId, version).Shows?
      requires CellAt(testResults, caseId, configId, version).result.rating != (if up then 1 else -1)
      modifies this
      ensures rating == if up then 1 else -1
      ensures testResultId == old(CellAt(testResults, caseId, configId, version)).result.id
      ensures State() == old(State()).(testResults := Rated(old(testResults), caseId, configId, version, rating))
    {
      rating := if up then 1 else -1;
      var i := FindFirst(testResults, ResultFor(caseId, configId, version)).value;
      testResultId := testResults[i].id;
      testResults := testResults[i := testResults[i].(rating := rating)];
    }

    /** `handleAddRow`: the created case is appended once the call resolves. */
    method HandleAddRow(reply: Option<TestCaseMsg>)
      modifies this
      ensures State() == old(State()).(testCases := old(testCases) + (if reply.Some? then [reply.value] else []))
    {
      if reply.Some? {
        testCases := testCases + [reply.value];
      }
    }

    /**
     * `handleImportYAML` once the file is read and parsed (`records` is None
     * when it does not parse as a list of records): one create per record, in
     * order, until a record throws; a rejected create is skipped.
     */
    method HandleImportYAML(records: Option<seq<YamlRecord>>, decode: Base64, replies: seq<Option<TestCaseMsg>>)
      returns (requests: seq<map<string, ProtoValue>>)
      modifies this
      ensures requests == if records.Some? then ImportRequests(old(variables), records.value, decode) else []
      ensures State() == old(State()).(testCases := old(testCases) + Created(replies, |requests|))
    {
      requests := [];
      if records.None? {
        return;
      }
      var created;
      requests, created := ImportAll(variables, records.value, decode, replies);
      testCases := testCases + created;
    }

    /** `handleVariableValueChange`. */
    method HandleVariableValueChange(caseId: string, name: string, value: ProtoValue)
      modifies this
      ensures State() == old(State()).(testCases := EditedValue(old(testCases), caseId, name, value))
    {
      testCases := EditedValue(testCases, caseId, name, value);
    }

    /**
     * `handleSyntheticGenerate`: with no active config it throws before any
     * request (`activeConfigs[0]`); otherwise the first config's model is
     * asked, and a resolved call appends the results and marks the rows they
     * name, result by result.
     */
    method HandleSyntheticGenerate(reply: Option<seq<TestResultMsg>>) returns (modelConfigName: Option<string>)
      modifies this
      ensures modelConfigName == if old(activeConfigs) == [] then None else Some(old(activeConfigs)[0].name)
      ensures State() == if old(activeConfigs) == [] || reply.None? then old(State()) else
        old(State()).(testResults := old(testResults) + reply.value, testCases := Marked(old(testCases), reply.value))
    {
      if activeConfigs == [] {
        return None;
      }
      modelConfigName := Some(activeConfigs[0].name);
      if reply.None? {
        return;
      }
      var results := reply.value;
      var updated := MarkEvaluated(testCases, results);
      testResults := testResults + results;
      testCases := updated;
    }

    /** `handleGenerateTestCase`: the cases of the response are appended only when the response has a `testCases` list. */
    method HandleGenerateTestCase(numCases: int, versionNumber: Option<u32>, reply: Option<Option<seq<TestCaseMsg>>>)
      returns (request: GenerateRequest)
      modifies this
      ensures request == GenerateRequest(versionNumber, workspaceId, numCases, if seedPrompt == "" then None else Some(seedPrompt))
      ensures State() == old(State()).(testCases := old(testCases) +
        (if reply.Some? && reply.value.Some? then reply.value.value else []))
    {
      request := GenerateRequest(versionNumber, workspaceId, numCases, None);
      if |seedPrompt| > 0 {
        request := request.(seedPrompt := Some(seedPrompt));
      }
      if reply.None? || reply.value.None? {
        return;
      }
      testCases := testCases + reply.value.value;
    }

    /** `handleDeleteTestCase`: no request for a missing or empty id; the rows with that id go once the delete resolves. */
    method HandleDeleteTestCase(caseId: Option<string>, ok: bool) returns (requested: bool)
      modifies this
      ensures requested <==> caseId.Some? && caseId.value != ""
      ensures State() == if requested && ok then old(State()).(testCases := Filter(old(testCases), NotCase(caseId.value))) else old(State())
    {
      if caseId.None? || caseId.value == "" {
        return false;
      }
      requested := true;
      if ok {
        testCases := Filter(testCases, NotCase(caseId.value));
      }
    }

    /** The seed-prompt box. */
    method SetSeedPrompt(text: string)
      modifies this
      ensures State() == old(State()).(seedPrompt := text)
    {
      seedPrompt := text;
    }
  }

  /**
   * The marking loop of `handleSyntheticGenerate` (line 376-385): for each
   * result in turn, the first row with its case id is marked evaluated.
   */
  method MarkEvaluated(cases: seq<TestCaseMsg>, results: seq<TestResultMsg>) returns (updated: seq<TestCaseMsg>)
    ensures updated == Marked(cases, results)
  {
    updated := cases;
    assert results[..0] == [];
    for j := 0 to |results|
      invariant updated == Marked(cases, results[..j])
    {
      var index := FindFirst(updated, CaseIs(results[j].testCaseId));
      MarkStep(cases, results, j, updated, index);
      if index.Some? {
        updated := updated[index.value := updated[index.value].(hasBeenEvaluated := true)];
      }
    }
    assert results[..|results|] == results;
  }

  /** A result added at the end names its own case, and only adds that one to those named. */
  lemma MentionedStep(results: seq<TestResultMsg>, j: nat, caseId: string)
    requires j < |results|
    ensures Mentioned(results[..j + 1], caseId) <==> Mentioned(results[..j], caseId) || results[j].testCaseId == caseId
  {
    var before := results[..j];
    var after := results[..j + 1];
    assert after[j] == results[j];
    assert forall i :: 0 <= i < j ==> after[i] == before[i];
  }

  /** One step of the marking loop: marking the first row with the result's id extends the marking by that result. */
  lemma MarkStep(cases: seq<TestCaseMsg>, results: seq<TestResultMsg>, j: nat, updated: seq<TestCaseMsg>, index: Option<nat>)
    requires j < |results|
    requires updated == Marked(cases, results[..j])
    requires index == FindFirst(updated, CaseIs(results[j].testCaseId))
    ensures index.Some? ==> index.value < |updated|
    ensures Marked(cases, results[..j + 1]) ==
      if index.Some? then updated[index.value := updated[index.value].(hasBeenEvaluated := true)] else updated
  {
    var id := results[j].testCaseId;
    var after := Marked(cases, results[..j + 1]);
    var expected := if index.Some? then updated[index.value := updated[index.value].(hasBeenEvaluated := true)] else updated;
    forall k | 0 <= k < |cases| ensures after[k] == expected[k] {
      MentionedStep(results, j, cases[k].id);
      if index.Some? && k == index.value {
        forall i | 0 <= i < k ensures cases[i].id != cases[k].id {
          assert updated[i].id == cases[i].id;
          assert !CaseIs(id)(updated[i]);
        }
        assert FirstOfId(cases, k);
      } else if cases[k].id == id {
        assert CaseIs(id)(updated[k]);
        assert index.Some? && index.value < k;
        assert cases[index.value].id == updated[index.value].id == id;
        assert !FirstOfId(cases, k);
      }
    }
  }
}

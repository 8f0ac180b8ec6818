/**
 * The test-case handlers of the evaluation service (packages/eval/testcases.go):
 * the conversion of variable values to and from the wire, listing, creating,
 * generating and deleting test cases.
 */
module TestCases {
  import opened Wrappers
  import opened Seqs
  import opened Text
  import opened EvalTypes
  import opened Proto
  import opened Tables
  import opened LlmUtils
  import opened EvalService
  import opened Prompts
  import opened Workspaces

  // ---------------------------------------------------------------------------
  // Variable values on the wire

  /**
   * The wire form of one stored value: the image when there is one, else the
   * text. A value with neither dereferences a nil text pointer: nothing.
   */
  function ValueToProto(v: VariableValue): Option<ProtoValue> {
    if |v.imageValue| > 0 then Some(ImageValue(v.imageValue))
    else if v.textValue.Some? then Some(TextValue(v.textValue.value))
    else None
  }

  /** The stored form of one wire value; an unset value becomes the zero value. */
  function ValueFromProto(p: ProtoValue): VariableValue {
    match p
    case ImageValue(b) => VariableValue(None, b)
    case TextValue(t) => VariableValue(Some(t), [])
    case Unset => VariableValue(None, [])
  }

  /** A stored value holding exactly one of a (non-empty) image and a text. */
  predicate Representable(v: VariableValue) {
    (|v.imageValue| > 0 && v.textValue.None?) || (v.imageValue == [] && v.textValue.Some?)
  }

  /**
   * Converting a stored value fails exactly when it has neither an image nor
   * a text, and a value holding exactly one of them comes back unchanged.
   */
  lemma ValueRoundTrip(v: VariableValue)
    ensures ValueToProto(v).None? <==> v.imageValue == [] && v.textValue.None?
    ensures Representable(v) ==> ValueToProto(v).Some? && ValueFromProto(ValueToProto(v).value) == v
  {
  }

  /** A wire value comes back unchanged, except an unset or empty image, which cannot be sent back at all. */
  lemma ProtoRoundTrip(p: ProtoValue)
    ensures ValueToProto(ValueFromProto(p)) == if p == Unset || p == ImageValue([]) then None else Some(p)
  {
  }

  /** Every value of the map can be sent. */
  predicate Convertible(vv: map<string, VariableValue>) {
    forall k :: k in vv ==> ValueToProto(vv[k]).Some?
  }

  /** What variableValuesToProto yields: the converted map, or nothing when some value crashes the loop. */
  function ValuesToProto(vv: map<string, VariableValue>): Option<map<string, ProtoValue>> {
    if Convertible(vv) then Some(map k | k in vv :: ValueToProto(vv[k]).value) else None
  }

  /** What variableValuesFromProto yields. */
  function ValuesFromProto(m: map<string, ProtoValue>): map<string, VariableValue> {
    map k | k in m :: ValueFromProto(m[k])
  }

  /** variableValuesToProto, visiting the keys in whatever order the map yields them. */
  method VariableValuesToProto(vv: map<string, VariableValue>) returns (r: Option<map<string, ProtoValue>>)
    ensures r == ValuesToProto(vv)
  {
    var acc: map<string, ProtoValue> := map[];
    var rest := vv.Keys;
    while rest != {}
      invariant rest <= vv.Keys
      invariant acc.Keys == vv.Keys - rest
      invariant forall k :: k in acc ==> ValueToProto(vv[k]) == Some(acc[k])
      decreases |rest|
    {
      var k :| k in rest;
      var p := ValueToProto(vv[k]);
      if p.None? {
        assert !Convertible(vv) by {
          assert k in vv && ValueToProto(vv[k]).None?;
        }
        return None;
      }
      acc := acc[k := p.value];
      rest := rest - {k};
    }
    assert Convertible(vv) by {
      forall k | k in vv ensures ValueToProto(vv[k]).Some? {
        assert k in acc;
      }
    }
    assert acc == map k | k in vv :: ValueToProto(vv[k]).value;
    r := Some(acc);
  }

  /** variableValuesFromProto. */
  method VariableValuesFromProto(m: map<string, ProtoValue>) returns (vv: map<string, VariableValue>)
    ensures vv == ValuesFromProto(m)
  {
    vv := map[];
    var rest := m.Keys;
    while rest != {}
      invariant rest <= m.Keys
      invariant vv.Keys == m.Keys - rest
      invariant forall k :: k in vv ==> vv[k] == ValueFromProto(m[k])
      decreases |rest|
    {
      var k :| k in rest;
      vv := vv[k := ValueFromProto(m[k])];
      rest := rest - {k};
    }
  }

  /** Stored values that each hold exactly one of an image and a text are sent and read back unchanged. */
  lemma StoredRoundTrip(vv: map<string, VariableValue>)
    requires forall k :: k in vv ==> Representable(vv[k])
    ensures ValuesToProto(vv).Some? && ValuesFromProto(ValuesToProto(vv).value) == vv
  {
    forall k | k in vv ensures ValueToProto(vv[k]).Some? && ValueFromProto(ValueToProto(vv[k]).value) == vv[k] {
      ValueRoundTrip(vv[k]);
    }
  }

  /** No unset or empty-image value among the wire values. */
  predicate Sendable(m: map<string, ProtoValue>) {
    forall k :: k in m ==> m[k] != Unset && m[k] != ImageValue([])
  }

  /**
   * Wire values, once stored, can be sent back exactly when none is unset or
   * an empty image, and they are then sent back unchanged.
   */
  lemma WireRoundTrip(m: map<string, ProtoValue>)
    ensures ValuesToProto(ValuesFromProto(m)) == Some(m) <==> Sendable(m)
    ensures ValuesToProto(ValuesFromProto(m)).None? <==> !Sendable(m)
  {
    var vv := ValuesFromProto(m);
    forall k | k in m ensures ValueToProto(vv[k]) == if m[k] == Unset || m[k] == ImageValue([]) then None else Some(m[k]) {
      ProtoRoundTrip(m[k]);
    }
    if Sendable(m) {
      assert Convertible(vv);
      assert ValuesToProto(vv).value == m;
    } else {
      var k :| k in m && (m[k] == Unset || m[k] == ImageValue([]));
      assert ValueToProto(vv[k]).None?;
    }
  }

  function CaseMsgOf(tc: TestCase, values: map<string, ProtoValue>): TestCaseMsg {
    TestCaseMsg(tc.id, tc.workspaceId, values, tc.hasBeenEvaluated)
  }

  // ---------------------------------------------------------------------------
  // ListTestCases

  /** The listing's filter: every case when no workspace is named, else the cases of that workspace. */
  function Listed(workspaceId: string): TestCase -> bool {
    (t: TestCase) => workspaceId == "" || t.workspaceId == workspaceId
  }

  /** The test "is a result for case `caseId`". */
  function ResultFor(caseId: string): TestResult -> bool {
    (r: TestResult) => r.testCaseId == caseId
  }

  /** A listed result; the rating is not copied, so it reads as 0. */
  function ResultMsgOf(r: TestResult): TestResultMsg {
    TestResultMsg(r.id, r.testCaseId, r.response, r.modelConfigName, r.promptVersionNumber, r.options, r.workspaceConfigId, 0)
  }

  function ResultMsgs(rs: seq<TestResult>): (r: seq<TestResultMsg>)
    ensures |r| == |rs| && forall i :: 0 <= i < |rs| ==> r[i] == ResultMsgOf(rs[i])
  {
    seq(|rs|, i requires 0 <= i < |rs| => ResultMsgOf(rs[i]))
  }

  /** The results of the cases of a page, case by case, each case's results in table order. */
  function PageResults(results: seq<TestResult>, page: seq<TestCase>): seq<TestResult>
    decreases |page|
  {
    if page == [] then []
    else PageResults(results, page[..|page| - 1]) + Filter(results, ResultFor(page[|page| - 1].id))
  }

  /** Every result listed is a stored result of a case of the page. */
  lemma {:induction false} PageResultsSound(results: seq<TestResult>, page: seq<TestCase>, r: TestResult)
    requires r in PageResults(results, page)
    ensures r in results && exists i :: 0 <= i < |page| && r.testCaseId == page[i].id
    decreases |page|
  {
    var n := |page| - 1;
    var f := Filter(results, ResultFor(page[n].id));
    FilterMembers(results, ResultFor(page[n].id));
    if r in PageResults(results, page[..n]) {
      PageResultsSound(results, page[..n], r);
      var i :| 0 <= i < n && r.testCaseId == page[..n][i].id;
      assert page[..n][i] == page[i];
    } else {
      assert r in f;
      assert ResultFor(page[n].id)(r);
    }
  }

  /** Every stored result of a case of the page is listed. */
  lemma {:induction false} PageResultsComplete(results: seq<TestResult>, page: seq<TestCase>, r: TestResult, i: nat)
    requires r in results && i < |page| && r.testCaseId == page[i].id
    ensures r in PageResults(results, page)
    decreases |page|
  {
    var n := |page| - 1;
    var f := Filter(results, ResultFor(page[n].id));
    assert PageResults(results, page) == PageResults(results, page[..n]) + f;
    if i < n {
      assert page[..n][i] == page[i];
      PageResultsComplete(results, page[..n], r, i);
    } else {
      FilterMembers(results, ResultFor(page[n].id));
      assert ResultFor(page[n].id)(r);
      assert r in f;
    }
  }

  /** The reply of ListTestCases. */
  datatype CaseList = CaseList(testCases: seq<TestCaseMsg>, totalCount: i32, testResults: seq<TestResultMsg>)

  /** Every case of the page can be sent. */
  predicate PageConvertible(page: seq<TestCase>) {
    forall i :: 0 <= i < |page| ==> ValuesToProto(page[i].values).Some?
  }

  /**
   * ListTestCases: the requested page of the (optionally workspace-filtered)
   * cases, the int32 count of all of them, and the results of the page's
   * cases. A case that cannot be sent crashes the handler.
   */
  method ListTestCases(s: Service, workspaceId: string, page: i32, pageSize: i32) returns (r: Result<CaseList>)
    ensures var cases := Page(Filter(s.testCases, Listed(workspaceId)), page, pageSize);
      && (r.Err? <==> !PageConvertible(cases))
      && (r.Err? ==> r.code == Crash)
      && (r.Ok? ==>
        && r.value.totalCount == ToInt32(|Filter(s.testCases, Listed(workspaceId))|)
        && |r.value.testCases| == |cases|
        && (forall i :: 0 <= i < |cases| ==> r.value.testCases[i] == CaseMsgOf(cases[i], ValuesToProto(cases[i].values).value))
        && r.value.testResults == ResultMsgs(PageResults(s.results, cases)))
  {
    var all := Filter(s.testCases, Listed(workspaceId));
    var total := ToInt32(|all|);
    var cases := Window(all, PageOffset(page, pageSize), pageSize);
    var results := CollectResults(s.results, cases);
    var msgs := CasesToProto(cases);
    if msgs.None? {
      return Err(Crash);
    }
    r := Ok(CaseList(msgs.value, total, results));
  }

  /** The results loop of ListTestCases: the results of each case of the page, case after case. */
  method CollectResults(allResults: seq<TestResult>, cases: seq<TestCase>) returns (results: seq<TestResultMsg>)
    ensures results == ResultMsgs(PageResults(allResults, cases))
  {
    results := [];
    for i := 0 to |cases|
      invariant results == ResultMsgs(PageResults(allResults, cases[..i]))
    {
      assert cases[..i + 1][..i] == cases[..i];
      var rs := Filter(allResults, ResultFor(cases[i].id));
      ghost var before := PageResults(allResults, cases[..i]);
      for j := 0 to |rs|
        invariant results == ResultMsgs(before + rs[..j])
      {
        assert before + rs[..j + 1] == (before + rs[..j]) + [rs[j]];
        results := results + [ResultMsgOf(rs[j])];
      }
      assert rs[..|rs|] == rs;
    }
    assert cases[..|cases|] == cases;
  }

  /** The conversion loop of ListTestCases: every case of the page sent, or nothing when one crashes. */
  method CasesToProto(cases: seq<TestCase>) returns (msgs: Option<seq<TestCaseMsg>>)
    ensures msgs.None? <==> !PageConvertible(cases)
    ensures msgs.Some? ==> |msgs.value| == |cases|
    ensures msgs.Some? ==> forall i :: 0 <= i < |cases| ==> msgs.value[i] == CaseMsgOf(cases[i], ValuesToProto(cases[i].values).value)
  {
    var acc: seq<TestCaseMsg> := [];
    for i := 0 to |cases|
      invariant |acc| == i
      invariant forall j :: 0 <= j < i ==> ValuesToProto(cases[j].values).Some?
      invariant forall j :: 0 <= j < i ==> acc[j] == CaseMsgOf(cases[j], ValuesToProto(cases[j].values).value)
    {
      var values := VariableValuesToProto(cases[i].values);
      if values.None? {
        return None;
      }
      acc := acc + [CaseMsgOf(cases[i], values.value)];
    }
    msgs := Some(acc);
  }

  // ---------------------------------------------------------------------------
  // CreateTestCase and DeleteTestCase

  /**
   * CreateTestCase: stores a fresh, unevaluated case with the given values;
   * the reply converts them back, which crashes (after the insert) when one
   * of them is unset or an empty image.
   */
  method CreateTestCase(s: Service, workspaceId: string, values: map<string, ProtoValue>) returns (r: Result<TestCaseMsg>)
    requires s.Valid()
    modifies s`testCases, s`minted
    ensures s.Valid()
    ensures var id := MintedId(old(s.minted));
      && !HasKey(old(s.testCases), CaseKey, id)
      && s.testCases == old(s.testCases) + [TestCase(id, workspaceId, ValuesFromProto(values), false)]
      && (Sendable(values) ==> r == Ok(TestCaseMsg(id, workspaceId, values, false)))
      && (!Sendable(values) ==> r == Err(Crash))
  {
    var id := s.NewId();
    var vv := VariableValuesFromProto(values);
    var tc := TestCase(id, workspaceId, vv, false);
    s.testCases := s.testCases + [tc];
    var back := VariableValuesToProto(tc.values);
    WireRoundTrip(values);
    if back.None? {
      return Err(Crash);
    }
    r := Ok(CaseMsgOf(tc, back.value));
  }

  /** DeleteTestCase: the case with the id (if any) disappears; its results stay behind. */
  method DeleteTestCase(s: Service, id: string) returns (r: Result<()>)
    requires s.Valid()
    modifies s`testCases
    ensures s.Valid()
    ensures r == Ok(()) && s.testCases == Without(old(s.testCases), CaseKey, id)
  {
    WithoutMembers(s.testCases, CaseKey, id);
    s.testCases := Without(s.testCases, CaseKey, id);
    r := Ok(());
  }

  // ---------------------------------------------------------------------------
  // GenerateTestCase

  /** The field tags of the generated-test-case reply struct. */
  const CASE_TAGS: seq<string> := ["reply", "summary", "variable_considerations", "test_cases>case"]

  /** One line "- name" per variable of the prompt version. */
  function VariableLines(vars: seq<Variable>): string
    decreases |vars|
  {
    if vars == [] then ""
    else VariableLines(vars[..|vars| - 1]) + "- " + vars[|vars| - 1].name + "\n"
  }

  /** The loop writing the variable list. */
  method WriteVariableLines(vars: seq<Variable>) returns (text: string)
    ensures text == VariableLines(vars)
  {
    text := "";
    for i := 0 to |vars|
      invariant text == VariableLines(vars[..i])
    {
      assert vars[..i + 1][..i] == vars[..i];
      text := text + "- " + vars[i].name + "\n";
    }
    assert vars[..|vars|] == vars;
  }

  /** Each variable adds exactly one line. */
  lemma {:induction false} VariableLinesLength(vars: seq<Variable>)
    ensures |VariableLines(vars)| == 3 * |vars| + Sum(vars)
    decreases |vars|
  {
    if vars != [] {
      VariableLinesLength(vars[..|vars| - 1]);
    }
  }

  /** The total length of the variables' names. */
  function Sum(vars: seq<Variable>): nat
    decreases |vars|
  {
    if vars == [] then 0 else Sum(vars[..|vars| - 1]) + |vars[|vars| - 1].name|
  }

  /** The keys of `m`, each once. */
  ghost predicate Enumerates(keys: seq<string>, m: map<string, VariableValue>) {
    NoDup(keys) && forall k :: k in keys <==> k in m
  }

  /** "k: text, " per key, "image" standing for a value without text. */
  function ExampleFields(values: map<string, VariableValue>, keys: seq<string>): string
    requires forall k :: k in keys ==> k in values
    decreases |keys|
  {
    if keys == [] then ""
    else
      var k := keys[|keys| - 1];
      ExampleFields(values, keys[..|keys| - 1]) + k + ": "
        + (if values[k].textValue.Some? then values[k].textValue.value else "image") + ", "
  }

  /** One example line, its fields in the order `keys`. */
  function ExampleLine(values: map<string, VariableValue>, keys: seq<string>): string
    requires forall k :: k in keys ==> k in values
  {
    "- " + ExampleFields(values, keys) + "\n"
  }

  /** The orders in which the example loop visited the keys of the first cases. */
  ghost predicate ValidOrders(cases: seq<TestCase>, orders: seq<seq<string>>) {
    |orders| <= |cases| && forall i :: 0 <= i < |orders| ==> Enumerates(orders[i], cases[i].values)
  }

  /** The example lines of the first |orders| cases. */
  function ExampleValues(cases: seq<TestCase>, orders: seq<seq<string>>): string
    requires ValidOrders(cases, orders)
    decreases |orders|
  {
    if orders == [] then ""
    else
      var n := |orders| - 1;
      ExampleValues(cases, orders[..n]) + ExampleLine(cases[n].values, orders[n])
  }

  /** `text` is the example text written for `cases` when the loop visits their keys in the orders `orders`. */
  ghost predicate ExamplesOf(cases: seq<TestCase>, orders: seq<seq<string>>, text: string) {
    |orders| == Min(|cases|, 3) && ValidOrders(cases, orders) && text == ExampleValues(cases, orders)
  }

  /** No examples exactly when there are no orders, that is, no cases. */
  lemma {:induction false} ExampleValuesEmpty(cases: seq<TestCase>, orders: seq<seq<string>>)
    requires ValidOrders(cases, orders)
    ensures ExampleValues(cases, orders) == "" <==> orders == []
  {
    if orders != [] {
      var n := |orders| - 1;
      assert |ExampleLine(cases[n].values, orders[n])| >= 3;
    }
  }

  /** The keys of one case's values, in the map's iteration order, and its example line. */
  method WriteExampleLine(values: map<string, VariableValue>) returns (line: string, keys: seq<string>)
    ensures Enumerates(keys, values)
    ensures line == ExampleLine(values, keys)
  {
    keys := [];
    var fields := "";
    var rest := values.Keys;
    while rest != {}
      invariant rest <= values.Keys
      invariant forall k :: k in keys <==> k in values && k !in rest
      invariant NoDup(keys)
      invariant fields == ExampleFields(values, keys)
      decreases |rest|
    {
      var k :| k in rest;
      var v := values[k];
      fields := fields + k + ": ";
      if v.textValue.Some? {
        fields := fields + v.textValue.value;
      } else {
        fields := fields + "image";
      }
      fields := fields + ", ";
      assert (keys + [k])[..|keys|] == keys;
      keys := keys + [k];
      rest := rest - {k};
    }
    line := "- " + fields + "\n";
  }

  /** The example loop: lines for at most the first three cases. */
  method WriteExampleValues(cases: seq<TestCase>) returns (text: string, orders: seq<seq<string>>)
    ensures |orders| == Min(|cases|, 3)
    ensures ValidOrders(cases, orders)
    ensures text == ExampleValues(cases, orders)
  {
    var n := Min(|cases|, 3);
    text := "";
    orders := [];
    for i := 0 to n
      invariant |orders| == i
      invariant ValidOrders(cases, orders)
      invariant text == ExampleValues(cases, orders)
    {
      var line, keys := WriteExampleLine(cases[i].values);
      assert (orders + [keys])[..i] == orders;
      orders := orders + [keys];
      text := text + line;
    }
  }

  /** The key a generated pair is stored under: its key, trimmed. */
  function PairKey(kv: KV): string {
    TrimSpace(kv.key)
  }

  /** The value a generated pair stores: its value, trimmed, as a text. */
  function PairValue(kv: KV): ProtoValue {
    TextValue(TrimSpace(kv.value))
  }

  /** The generated pairs as wire values: trimmed key to trimmed text, a later pair overriding an earlier one. */
  function OutVars(cases: seq<KV>): map<string, ProtoValue> {
    Assoc(cases, PairKey, PairValue)
  }

  /** The loop building the generated values. */
  method BuildOutVars(cases: seq<KV>) returns (m: map<string, ProtoValue>)
    ensures m == OutVars(cases)
  {
    m := map[];
    for i := 0 to |cases|
      invariant m == Assoc(cases[..i], PairKey, PairValue)
    {
      AssocStep(cases, PairKey, PairValue, i);
      m := m[PairKey(cases[i]) := PairValue(cases[i])];
    }
    assert cases[..|cases|] == cases;
  }

  /** Pair `i` is the last pair whose trimmed key is `k`. */
  predicate LastWithKey(cases: seq<KV>, i: int, k: string) {
    0 <= i < |cases| && TrimSpace(cases[i].key) == k
    && forall j :: i < j < |cases| ==> TrimSpace(cases[j].key) != k
  }

  /**
   * A generated variable exists for each trimmed pair key and no other, and
   * holds the trimmed text of the last pair with that key.
   */
  lemma OutVarsSpec(cases: seq<KV>, k: string)
    ensures k in OutVars(cases) <==> exists i :: 0 <= i < |cases| && TrimSpace(cases[i].key) == k
    ensures forall i :: LastWithKey(cases, i, k) ==> OutVars(cases)[k] == TextValue(TrimSpace(cases[i].value))
  {
    AssocKeys(cases, PairKey, PairValue, k);
    forall i | LastWithKey(cases, i, k)
      ensures OutVars(cases)[k] == TextValue(TrimSpace(cases[i].value))
    {
      AssocLastWins(cases, PairKey, PairValue, i);
    }
  }

  /** A generated test case can always be listed: its values are all texts, so they convert back unchanged. */
  lemma GeneratedCaseSendable(cases: seq<KV>)
    ensures ValuesToProto(ValuesFromProto(OutVars(cases))) == Some(OutVars(cases))
  {
    var m := OutVars(cases);
    forall k | k in m ensures m[k].TextValue? {
      AssocValues(cases, PairKey, PairValue, k);
    }
    WireRoundTrip(m);
  }

  /** The test "is version `version` of workspace `workspaceId`". */
  function VersionOf(workspaceId: string, version: u32): Prompt -> bool {
    (p: Prompt) => p.workspaceId == workspaceId && p.versionNumber == version
  }

  /** The test "is a case of workspace `workspaceId`". */
  function CaseOf(workspaceId: string): TestCase -> bool {
    (t: TestCase) => t.workspaceId == workspaceId
  }

  /** The generation gets as far as writing the examples: model, workspace and a non-zero version exist. */
  ghost predicate PromptFound(s: Service, workspaceId: string, version: u32)
    reads s
  {
    && s.defaultSmallModelConfig in s.models
    && HasKey(s.workspaces, WorkspaceKey, workspaceId)
    && First(s.prompts, VersionOf(workspaceId, version)).Some? && version != 0
  }

  /**
   * The values GenerateTestCase obtains from the small model, given the
   * example text it wrote: NotFound for an unregistered small model or a
   * missing (or zero) version, Internal when the workspace is missing or the
   * call or the decoding fails.
   */
  function GeneratedValues(s: Service, workspaceId: string, version: u32, examples: string): Result<map<string, ProtoValue>>
    reads s, s.providers
  {
    if s.defaultSmallModelConfig !in s.models then Err(NotFound)
    else if !HasKey(s.workspaces, WorkspaceKey, workspaceId) then Err(Internal)
    else
      var pv := First(s.prompts, VersionOf(workspaceId, version));
      if pv.None? || version == 0 then Err(NotFound)
      else AskedValues(s, s.models[s.defaultSmallModelConfig], pv.value, examples)
  }

  /** The model's answer for the prompt version `pv` and the example text, as wire values. */
  function AskedValues(s: Service, mc: ModelConfig, pv: Prompt, examples: string): Result<map<string, ProtoValue>>
    reads s, s.providers
  {
    var vars := map["PROMPT_TEMPLATE" := pv.content, "VARIABLES" := VariableLines(pv.variables),
                    "EXAMPLE_VALUES" := examples];
    var prompt := ReplacePromptVariables(s.generateTestCasePrompt, vars);
    match s.InferSync(UserRequest(mc, prompt, 768, 1.2))
    case Err(_) => Err(Internal)
    case Ok(resp) =>
      match s.Parse(resp, CASE_TAGS)
      case None => Err(Internal)
      case Some(d) => Ok(OutVars(d.cases))
  }

  /** The steps of GenerateTestCase up to the model's answer. */
  method Generate(s: Service, workspaceId: string, version: u32) returns (r: Result<map<string, ProtoValue>>, ghost examples: string)
    ensures PromptFound(s, workspaceId, version) ==>
      exists orders :: ExamplesOf(Filter(s.testCases, CaseOf(workspaceId)), orders, examples)
    ensures r == GeneratedValues(s, workspaceId, version, examples)
  {
    examples := "";
    if s.defaultSmallModelConfig !in s.models {
      return Err(NotFound), examples;
    }
    var mc := s.models[s.defaultSmallModelConfig];
    var row := Lookup(s.workspaces, WorkspaceKey, workspaceId);
    if row.None? {
      return Err(Internal), examples;
    }
    assert row.value.id == workspaceId;
    var pv := First(s.prompts, VersionOf(row.value.id, version));
    if pv.None? || version == 0 {
      return Err(NotFound), examples;
    }
    var cases := Filter(s.testCases, CaseOf(workspaceId));
    var text, orders := WriteExampleValues(cases);
    examples := text;
    assert ExamplesOf(cases, orders, examples);
    r := AskModel(s, mc, pv.value, text);
  }

  /** The request to the model and the decoding of its answer. */
  method AskModel(s: Service, mc: ModelConfig, pv: Prompt, examples: string) returns (r: Result<map<string, ProtoValue>>)
    ensures r == AskedValues(s, mc, pv, examples)
  {
    var variables := WriteVariableLines(pv.variables);
    var vars := map["PROMPT_TEMPLATE" := pv.content, "VARIABLES" := variables, "EXAMPLE_VALUES" := examples];
    var prompt := ReplacePromptVariables(s.generateTestCasePrompt, vars);
    var resp := s.InferSync(UserRequest(mc, prompt, 768, 1.2));
    if resp.Err? {
      return Err(Internal);
    }
    var parsed := ParseResponse(resp.value, CASE_TAGS, s.decode, s.unescape);
    if parsed.None? {
      return Err(Internal);
    }
    var out := BuildOutVars(parsed.value.cases);
    r := Ok(out);
  }

  /**
   * GenerateTestCase: the small model writes one test case for a prompt
   * version, shown up to three existing cases of the workspace as examples;
   * the case is stored unevaluated under a fresh id.
   */
  method GenerateTestCase(s: Service, workspaceId: string, version: u32) returns (r: Result<TestCaseMsg>, ghost examples: string)
    requires s.Valid()
    modifies s`testCases, s`minted
    ensures s.Valid()
    ensures old(PromptFound(s, workspaceId, version)) ==>
      exists orders :: ExamplesOf(Filter(old(s.testCases), CaseOf(workspaceId)), orders, examples)
    ensures var g := old(GeneratedValues(s, workspaceId, version, examples));
      && (g.Err? ==> r == Err(g.code) && s.testCases == old(s.testCases))
      && (g.Ok? ==>
        var id := MintedId(old(s.minted));
        && !HasKey(old(s.testCases), CaseKey, id)
        && r == Ok(TestCaseMsg(id, workspaceId, g.value, false))
        && s.testCases == old(s.testCases) + [TestCase(id, workspaceId, ValuesFromProto(g.value), false)])
  {
    var values;
    values, examples := Generate(s, workspaceId, version);
    if values.Err? {
      return Err(values.code), examples;
    }
    r := StoreGenerated(s, workspaceId, values.value);
  }

  /** The end of GenerateTestCase: the generated values stored as a new unevaluated case under a fresh id. */
  method StoreGenerated(s: Service, workspaceId: string, values: map<string, ProtoValue>) returns (r: Result<TestCaseMsg>)
    requires s.Valid()
    modifies s`testCases, s`minted
    ensures s.Valid()
    ensures var id := MintedId(old(s.minted));
      && !HasKey(old(s.testCases), CaseKey, id)
      && r == Ok(TestCaseMsg(id, workspaceId, values, false))
      && s.testCases == old(s.testCases) + [TestCase(id, workspaceId, ValuesFromProto(values), false)]
  {
    var id := s.NewId();
    var vv := VariableValuesFromProto(values);
    var tc := TestCase(id, workspaceId, vv, false);
    s.testCases := s.testCases + [tc];
    r := Ok(TestCaseMsg(tc.id, tc.workspaceId, values, tc.hasBeenEvaluated));
  }
}

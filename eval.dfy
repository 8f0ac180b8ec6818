/**
 * The evaluation handlers of packages/eval/eval.go: running a test case
 * against a workspace's active configs (reusing stored results), and
 * evaluating every test case of a workspace against its first active config.
 * The goroutines of processTestCaseWithConfigs run one after the other here.
 */
module Evaluation {
  import opened Wrappers
  import opened Seqs
  import opened EvalTypes
  import opened Proto
  import opened Tables
  import opened LlmUtils
  import opened EvalService
  import opened Providers
  import opened Workspaces
  import opened TestCases

  // ---------------------------------------------------------------------
  // The messages sent to the model
  // ---------------------------------------------------------------------

  /** The variables a prompt is filled with: the text of every value that has one; image values are skipped. */
  function TextVars(values: map<string, VariableValue>): map<string, string> {
    map k | k in values && values[k].textValue.Some? :: values[k].textValue.value
  }

  /** prepareVariables, visiting the keys in whatever order the map yields them. */
  method PrepareVariables(tc: TestCase) returns (vars: map<string, string>)
    ensures forall k :: k in vars <==> k in tc.values && tc.values[k].textValue.Some?
    ensures forall k :: k in vars ==> tc.values[k].textValue == Some(vars[k])
    ensures vars == TextVars(tc.values)
  {
    vars := map[];
    var todo := tc.values.Keys;
    while todo != {}
      invariant todo <= tc.values.Keys
      invariant forall k :: k in vars <==> k in tc.values && k !in todo && tc.values[k].textValue.Some?
      invariant forall k :: k in vars ==> tc.values[k].textValue == Some(vars[k])
      decreases todo
    {
      var k :| k in todo;
      if tc.values[k].textValue.Some? {
        vars := vars[k := tc.values[k].textValue.value];
      }
      todo := todo - {k};
    }
  }

  /** A placeholder whose variable holds only an image is left in the prompt as it is. */
  lemma ImagePlaceholderKept(values: map<string, VariableValue>, name: string, rest: string)
    requires IsName(name) && name in values && values[name].textValue.None?
    ensures ReplacePromptVariables("{{" + name + "}}" + rest, TextVars(values))
         == "{{" + name + "}}" + ReplacePromptVariables(rest, TextVars(values))
  {
    ReplaceUnknown(name, rest, TextVars(values));
  }

  /** More configs than this in one request mark the messages for prompt caching. */
  const CACHE_THRESHOLD: nat := 5

  /**
   * prepareBaseMessages: the system prompt (when there is one) followed by
   * the filled prompt as the user's message, all with the same caching flag.
   */
  function BaseMessages(system: Option<SystemPrompt>, promptStr: string, shouldCache: bool): (r: seq<Message>)
    ensures |r| == if system.Some? then 2 else 1
    ensures r[|r| - 1] == Message(promptStr, UserRole, shouldCache)
    ensures system.Some? ==> r[0] == Message(system.value.content, SystemRole, shouldCache)
    ensures forall i :: 0 <= i < |r| ==> r[i].shouldCache == shouldCache
  {
    (if system.Some? then [Message(system.value.content, SystemRole, shouldCache)] else [])
    + [Message(promptStr, UserRole, shouldCache)]
  }

  /** The messages processTestCaseWithConfigs sends for `tc` to each of `n` configs. */
  function PromptMessages(tc: TestCase, pv: Prompt, system: Option<SystemPrompt>, n: nat): seq<Message> {
    BaseMessages(system, ReplacePromptVariables(pv.content, TextVars(tc.values)), n > CACHE_THRESHOLD)
  }

  /** The request for one config: its message options, with the token limit widened to int. */
  function Request(mc: ModelConfig, messages: seq<Message>, config: WorkspaceConfig): InferRequest {
    InferRequest(mc, messages, config.options.maxTokens, config.options.temperature)
  }

  // ---------------------------------------------------------------------
  // Test cases sent with an evaluation request
  // ---------------------------------------------------------------------

  /** What convertVariableValues stores: texts and images; unset values are dropped. */
  function ConvertedValues(m: map<string, ProtoValue>): map<string, VariableValue> {
    map k | k in m && m[k] != Unset :: ValueFromProto(m[k])
  }

  /** convertVariableValues, visiting the keys in whatever order the map yields them. */
  method ConvertVariableValues(m: map<string, ProtoValue>) returns (r: map<string, VariableValue>)
    ensures r == ConvertedValues(m)
  {
    r := map[];
    var todo := m.Keys;
    while todo != {}
      invariant todo <= m.Keys
      invariant forall k :: k in r <==> k in m && k !in todo && m[k] != Unset
      invariant forall k :: k in r ==> r[k] == ValueFromProto(m[k])
      decreases todo
    {
      var k :| k in todo;
      match m[k] {
        case TextValue(t) =>
          r := r[k := VariableValue(Some(t), [])];
        case ImageValue(b) =>
          r := r[k := VariableValue(None, b)];
        case Unset =>
      }
      todo := todo - {k};
    }
  }

  /**
   * The evaluation path and the create path store the same value for every
   * key they both keep; they keep the same keys exactly when nothing is
   * unset, and then what is stored is sent back unchanged when it is
   * sendable at all.
   */
  lemma ConvertedAgreesWithCreate(m: map<string, ProtoValue>)
    ensures forall k :: k in ConvertedValues(m) ==> k in ValuesFromProto(m) && ConvertedValues(m)[k] == ValuesFromProto(m)[k]
    ensures ConvertedValues(m) == ValuesFromProto(m) <==> forall k :: k in m ==> m[k] != Unset
    ensures Sendable(m) ==> ValuesToProto(ConvertedValues(m)) == Some(m)
  {
    if ConvertedValues(m) == ValuesFromProto(m) {
      forall k | k in m ensures m[k] != Unset {
        assert k in ValuesFromProto(m);
      }
    }
    if forall k :: k in m ==> m[k] != Unset {
      assert ConvertedValues(m) == ValuesFromProto(m);
    }
    if Sendable(m) {
      assert ConvertedValues(m) == ValuesFromProto(m);
      WireRoundTrip(m);
    }
  }

  /** An incoming value differs from what the stored case has under `k` (unset values never do). */
  predicate Differs(values: map<string, VariableValue>, k: string, p: ProtoValue) {
    match p
    case TextValue(t) => k !in values || values[k].textValue != Some(t)
    case ImageValue(b) => k !in values || values[k].imageValue != b
    case Unset => false
  }

  /** shouldUpdateTestCase's answer: the case was never evaluated, or some incoming value differs. */
  predicate NeedsUpdate(existing: TestCase, incoming: map<string, ProtoValue>) {
    !existing.hasBeenEvaluated || exists k :: k in incoming && Differs(existing.values, k, incoming[k])
  }

  /** shouldUpdateTestCase, visiting the incoming keys in whatever order the map yields them. */
  method ShouldUpdateTestCase(existing: TestCase, incoming: TestCaseMsg) returns (b: bool)
    ensures b == NeedsUpdate(existing, incoming.values)
  {
    if !existing.hasBeenEvaluated {
      return true;
    }
    var todo := incoming.values.Keys;
    while todo != {}
      invariant todo <= incoming.values.Keys
      invariant forall k :: k in incoming.values && k !in todo ==> !Differs(existing.values, k, incoming.values[k])
      decreases todo
    {
      var k :| k in todo;
      match incoming.values[k] {
        case TextValue(t) =>
          if k in existing.values {
            if existing.values[k].textValue.None? || existing.values[k].textValue.value != t {
              return true;
            }
          } else {
            return true;
          }
        case ImageValue(img) =>
          if k in existing.values {
            if existing.values[k].imageValue != img {
              return true;
            }
          } else {
            return true;
          }
        case Unset =>
      }
      todo := todo - {k};
    }
    return false;
  }

  /** Once a case has been updated from a request, the same request needs no further update. */
  lemma UpdateSettles(tc: TestCase, m: map<string, ProtoValue>)
    ensures !NeedsUpdate(tc.(values := ConvertedValues(m), hasBeenEvaluated := true), m)
  {
    var values := ConvertedValues(m);
    forall k | k in m ensures !Differs(values, k, m[k]) {
      if m[k] != Unset {
        assert k in values;
      }
    }
  }

  /** Stored values under keys the request does not mention never force an update. */
  lemma ExtraKeysIrrelevant(tc: TestCase, m: map<string, ProtoValue>, k: string, v: VariableValue)
    requires k !in m
    ensures NeedsUpdate(tc.(values := tc.values[k := v]), m) == NeedsUpdate(tc, m)
  {
    var values := tc.values[k := v];
    assert forall j :: j in m ==> Differs(values, j, m[j]) == Differs(tc.values, j, m[j]);
  }

  /** Unset values in the request never force an update. */
  lemma UnsetIrrelevant(tc: TestCase, m: map<string, ProtoValue>, k: string)
    ensures NeedsUpdate(tc, m[k := Unset]) == NeedsUpdate(tc, m - {k})
  {
    var a, b := m[k := Unset], m - {k};
    assert forall j :: j in a && Differs(tc.values, j, a[j]) ==> j in b && Differs(tc.values, j, b[j]);
    assert forall j :: j in b && Differs(tc.values, j, b[j]) ==> j in a && Differs(tc.values, j, a[j]);
  }

  /** The first half of getOrCreateTestCase: the stored case with the request's id, or a new unevaluated one. */
  method FindOrInsertCase(s: Service, msg: TestCaseMsg, workspaceId: string) returns (tc: TestCase)
    requires s.Valid()
    modifies s`testCases, s`minted
    ensures s.Valid()
    ensures Lookup(s.testCases, CaseKey, tc.id) == Some(tc)
    ensures old(Lookup(s.testCases, CaseKey, msg.id)).Some? ==>
              tc == old(Lookup(s.testCases, CaseKey, msg.id)).value && s.testCases == old(s.testCases)
    ensures old(Lookup(s.testCases, CaseKey, msg.id)).None? ==>
              && tc == TestCase(MintedId(old(s.minted)), workspaceId, ConvertedValues(msg.values), false)
              && !HasKey(old(s.testCases), CaseKey, tc.id)
              && s.testCases == old(s.testCases) + [tc]
  {
    var found := Lookup(s.testCases, CaseKey, msg.id);
    if found.Some? {
      return found.value;
    }
    var id := s.NewId();
    var values := ConvertVariableValues(msg.values);
    tc := TestCase(id, workspaceId, values, false);
    LookupAppend(s.testCases, CaseKey, tc, id);
    s.testCases := s.testCases + [tc];
  }

  /** gorm's Save of a test case whose id is set. */
  method SaveCase(s: Service, tc: TestCase)
    requires s.Valid() && 0 < |tc.id| <= s.minted
    modifies s`testCases
    ensures s.Valid()
    ensures s.testCases == Upsert(old(s.testCases), CaseKey, tc)
    ensures Lookup(s.testCases, CaseKey, tc.id) == Some(tc)
  {
    ghost var before := s.testCases;
    s.testCases := Upsert(s.testCases, CaseKey, tc);
    assert forall x :: x in s.testCases ==> x == tc || x in before;
    SaveThenLookup(before, CaseKey, tc);
  }

  /**
   * getOrCreateTestCase: the stored case with the request's id, or a new one
   * with a fresh id; then, when it needs an update, the request's values are
   * stored into it and it is marked evaluated. A missing test case message is
   * a nil dereference.
   */
  method GetOrCreateTestCase(s: Service, msg: Option<TestCaseMsg>, workspaceId: string) returns (r: Result<TestCase>)
    requires s.Valid()
    modifies s`testCases, s`minted
    ensures s.Valid()
    ensures msg.None? ==> r == Err(Crash) && s.testCases == old(s.testCases)
    ensures msg.Some? ==> r.Ok?
    ensures r.Ok? ==> r.value.hasBeenEvaluated && !NeedsUpdate(r.value, msg.value.values)
    ensures r.Ok? ==> Lookup(s.testCases, CaseKey, r.value.id) == Some(r.value)
    ensures msg.Some? && old(Lookup(s.testCases, CaseKey, msg.value.id)).None? ==>
              && r.value == TestCase(MintedId(old(s.minted)), workspaceId, ConvertedValues(msg.value.values), true)
              && s.testCases == old(s.testCases) + [r.value]
    ensures msg.Some? && old(Lookup(s.testCases, CaseKey, msg.value.id)).Some? ==>
              var t := old(Lookup(s.testCases, CaseKey, msg.value.id)).value;
              if NeedsUpdate(t, msg.value.values) then
                && r.value == t.(values := ConvertedValues(msg.value.values), hasBeenEvaluated := true)
                && s.testCases == Upsert(old(s.testCases), CaseKey, r.value)
              else r.value == t && s.testCases == old(s.testCases)
  {
    if msg.None? {
      return Err(Crash);
    }
    var tc := FindOrInsertCase(s, msg.value, workspaceId);
    var update := ShouldUpdateTestCase(tc, msg.value);
    if update {
      ghost var first := tc;
      var values := ConvertVariableValues(msg.value.values);
      tc := tc.(values := values, hasBeenEvaluated := true);
      SaveCase(s, tc);
      if old(Lookup(s.testCases, CaseKey, msg.value.id)).None? {
        SaveOverInsert(old(s.testCases), CaseKey, first, tc);
      }
    }
    UpdateSettles(tc, msg.value.values);
    r := Ok(tc);
  }

  // ---------------------------------------------------------------------
  // Which configs still have to answer
  // ---------------------------------------------------------------------

  /** The stored-result test: a result of case `caseId` from config `configId` for prompt version `version`. */
  function IsResultFor(caseId: string, configId: string, version: int): TestResult -> bool {
    (t: TestResult) => t.testCaseId == caseId && t.workspaceConfigId == configId && t.promptVersionNumber == version
  }

  predicate HasResult(results: seq<TestResult>, caseId: string, configId: string, version: int) {
    exists i :: 0 <= i < |results| && IsResultFor(caseId, configId, version)(results[i])
  }

  /** A config still to run for the case: it is active and no result of it is stored for the version. */
  function Pending(results: seq<TestResult>, caseId: string, version: i32): WorkspaceConfig -> bool {
    (c: WorkspaceConfig) => c.active && !HasResult(results, caseId, c.id, version)
  }

  /** getActiveWorkspaceConfigs: the loaded configs still to run, in their loaded order. */
  method GetActiveWorkspaceConfigs(s: Service, w: Workspace, caseId: string, version: i32) returns (r: seq<WorkspaceConfig>)
    ensures r == Filter(w.workspaceConfigs, Pending(s.results, caseId, version))
  {
    var configs := w.workspaceConfigs;
    r := [];
    for i := 0 to |configs|
      invariant r == Filter(configs[..i], Pending(s.results, caseId, version))
    {
      assert configs[..i + 1] == configs[..i] + [configs[i]];
      FilterAppend(configs[..i], configs[i], Pending(s.results, caseId, version));
      if configs[i].active {
        var found := First(s.results, IsResultFor(caseId, configs[i].id, version));
        FirstSpec(s.results, IsResultFor(caseId, configs[i].id, version));
        if found.None? {
          r := r + [configs[i]];
        }
      }
    }
    assert configs[..|configs|] == configs;
  }

  function IsActive(c: WorkspaceConfig): bool { c.active }

  /** getActiveWorkspaceConfig: the first active loaded config, or nothing. */
  method GetActiveWorkspaceConfig(w: Workspace) returns (r: Option<WorkspaceConfig>)
    ensures r.Some? ==> r.value in w.workspaceConfigs && r.value.active
    ensures r.None? <==> forall j :: 0 <= j < |w.workspaceConfigs| ==> !w.workspaceConfigs[j].active
    ensures r == First(w.workspaceConfigs, IsActive)
  {
    var configs := w.workspaceConfigs;
    for i := 0 to |configs|
      invariant forall j :: 0 <= j < i ==> !configs[j].active
    {
      if configs[i].active {
        assert FindFirst(configs, IsActive) == Some(i);
        return Some(configs[i]);
      }
    }
    return None;
  }

  /** When every active config has a result for the version, none is still to run. */
  lemma {:induction false} AnsweredNotPending(configs: seq<WorkspaceConfig>, results: seq<TestResult>, caseId: string, version: i32)
    requires forall i :: 0 <= i < |configs| && configs[i].active ==> HasResult(results, caseId, configs[i].id, version)
    ensures Filter(configs, Pending(results, caseId, version)) == []
    decreases |configs|
  {
    if configs != [] {
      AnsweredNotPending(configs[..|configs| - 1], results, caseId, version);
    }
  }

  /**
   * The version is compared as an int32: from 2^31 on it reads as negative,
   * no stored (unsigned) version matches, and every active config runs again.
   */
  lemma HighVersionAlwaysPending(results: seq<TestResult>, caseId: string, version: u32, c: WorkspaceConfig)
    requires version >= TWO_31
    ensures Pending(results, caseId, ToInt32(version))(c) == c.active
  {
    assert ToInt32(version) == version - TWO_32;
  }

  // ---------------------------------------------------------------------
  // Running configs
  // ---------------------------------------------------------------------

  /** A stored result the message reports: same id, reply, case, config and version. */
  predicate Stored(results: seq<TestResult>, m: TestResultMsg) {
    exists i :: 0 <= i < |results| && results[i].id == m.id && results[i].response == m.response
      && IsResultFor(m.testCaseId, m.workspaceConfigId, m.promptVersionNumber)(results[i])
  }

  lemma StoredGrows(a: seq<TestResult>, b: seq<TestResult>, m: TestResultMsg)
    requires a <= b && Stored(a, m)
    ensures Stored(b, m)
  {
    var i :| 0 <= i < |a| && a[i].id == m.id && a[i].response == m.response
      && IsResultFor(m.testCaseId, m.workspaceConfigId, m.promptVersionNumber)(a[i]);
    assert b[i] == a[i];
  }

  lemma HasResultGrows(a: seq<TestResult>, b: seq<TestResult>, caseId: string, configId: string, version: int)
    requires a <= b && HasResult(a, caseId, configId, version)
    ensures HasResult(b, caseId, configId, version)
  {
    var i :| 0 <= i < |a| && IsResultFor(caseId, configId, version)(a[i]);
    assert b[i] == a[i];
  }

  /** The result message of a config for the case: the config's name, options and id, the prompt's version, no rating. */
  function EvalMsg(id: string, response: string, caseId: string, config: WorkspaceConfig, version: u32): TestResultMsg {
    TestResultMsg(id, caseId, response, config.modelConfigName, version, config.options, config.id, 0)
  }

  /** The message answers config `config` for case `tc` at prompt `pv`. */
  predicate Answers(m: TestResultMsg, tc: TestCase, config: WorkspaceConfig, pv: Prompt) {
    m == EvalMsg(m.id, m.response, tc.id, config, pv.versionNumber)
  }

  /** The stored result processSingleConfig reuses: only for a case already evaluated. */
  function Cached(results: seq<TestResult>, tc: TestCase, config: WorkspaceConfig, version: u32): Option<TestResult> {
    if tc.hasBeenEvaluated then First(results, IsResultFor(tc.id, config.id, version)) else None
  }

  /** The Updates of the evaluated flag: every row of case `id` is marked, the rest stay. */
  function MarkEvaluated(cases: seq<TestCase>, id: string): (r: seq<TestCase>)
    ensures |r| == |cases|
    ensures forall i :: 0 <= i < |cases| ==> r[i] == if cases[i].id == id then cases[i].(hasBeenEvaluated := true) else cases[i]
  {
    seq(|cases|, i requires 0 <= i < |cases| => if cases[i].id == id then cases[i].(hasBeenEvaluated := true) else cases[i])
  }

  /** Marking keeps every key where it was, marks the case looked up under `id` and leaves the others. */
  lemma MarkEvaluatedLookup(cases: seq<TestCase>, id: string, k: string)
    ensures Lookup(MarkEvaluated(cases, id), CaseKey, k)
         == match Lookup(cases, CaseKey, k)
            case None => None
            case Some(t) => Some(if k == id then t.(hasBeenEvaluated := true) else t)
  {
    var m := MarkEvaluated(cases, id);
    var a, b := FirstIndex(m, CaseKey, k), FirstIndex(cases, CaseKey, k);
    assert forall j :: 0 <= j < |cases| ==> CaseKey(m[j]) == CaseKey(cases[j]);
    if b.Some? {
      assert CaseKey(m[b.value]) == k;
      assert a.Some? && a.value <= b.value;
      assert CaseKey(cases[a.value]) == k;
      assert a == b;
    }
  }

  /** Marking changes no key. */
  lemma MarkKeepsKeys(cases: seq<TestCase>, id: string, n: nat)
    requires forall t :: t in cases ==> 0 < |t.id| <= n
    ensures forall t :: t in MarkEvaluated(cases, id) ==> 0 < |t.id| <= n
  {
    var m := MarkEvaluated(cases, id);
    forall t | t in m ensures 0 < |t.id| <= n {
      var i :| 0 <= i < |m| && m[i] == t;
      assert cases[i] in cases;
    }
  }

  /** Marking twice is marking once. */
  lemma MarkEvaluatedTwice(cases: seq<TestCase>, id: string)
    ensures MarkEvaluated(MarkEvaluated(cases, id), id) == MarkEvaluated(cases, id)
  {
  }

  /** The table with every row of each id in `ids` marked evaluated, one id after the other. */
  function MarkAll(cases: seq<TestCase>, ids: seq<string>): (r: seq<TestCase>)
    ensures |r| == |cases|
    ensures forall i :: 0 <= i < |cases| ==> r[i] == if cases[i].id in ids then cases[i].(hasBeenEvaluated := true) else cases[i]
    decreases |ids|
  {
    if ids == [] then cases
    else
      var n := |ids| - 1;
      assert ids == ids[..n] + [ids[n]];
      MarkEvaluated(MarkAll(cases, ids[..n]), ids[n])
  }

  /**
   * processSingleConfig: a case already evaluated reuses the first stored
   * result for the config and version without asking the model; otherwise
   * the model's reply is stored as a new result under a fresh id and every
   * row of the case is marked evaluated. A failed request stores nothing.
   */
  method ProcessSingleConfig(s: Service, tc: TestCase, pv: Prompt, messages: seq<Message>, config: WorkspaceConfig, mc: ModelConfig)
    returns (r: Result<TestResultMsg>)
    requires s.Valid()
    modifies s`results, s`testCases, s`minted
    ensures s.Valid()
    ensures old(s.results) <= s.results
    ensures r.Ok? ==> Answers(r.value, tc, config, pv) && Stored(s.results, r.value)
    ensures Cached(old(s.results), tc, config, pv.versionNumber).Some? ==>
              var hit := Cached(old(s.results), tc, config, pv.versionNumber).value;
              && r == Ok(EvalMsg(hit.id, hit.response, tc.id, config, pv.versionNumber))
              && s.results == old(s.results) && s.testCases == old(s.testCases)
    ensures Cached(old(s.results), tc, config, pv.versionNumber).None? ==>
              match s.InferSync(Request(mc, messages, config))
              case Err(_) => r == Err(Unknown) && s.results == old(s.results) && s.testCases == old(s.testCases)
              case Ok(reply) =>
                var stored := TestResult(MintedId(old(s.minted)), tc.id, reply, pv.versionNumber, config.modelConfigName, config.id, 0, config.options);
                && r == Ok(EvalMsg(stored.id, reply, tc.id, config, pv.versionNumber))
                && s.results == old(s.results) + [stored]
                && s.testCases == MarkEvaluated(old(s.testCases), tc.id)
  {
    if tc.hasBeenEvaluated {
      var hit := First(s.results, IsResultFor(tc.id, config.id, pv.versionNumber));
      if hit.Some? {
        FirstSpec(s.results, IsResultFor(tc.id, config.id, pv.versionNumber));
        r := Ok(EvalMsg(hit.value.id, hit.value.response, tc.id, config, pv.versionNumber));
        return;
      }
    }
    var reply := s.InferSync(Request(mc, messages, config));
    if reply.Err? {
      return Err(Unknown);
    }
    var id := s.NewId();
    var stored := TestResult(id, tc.id, reply.value, pv.versionNumber, config.modelConfigName, config.id, 0, config.options);
    s.results := s.results + [stored];
    MarkKeepsKeys(s.testCases, tc.id, s.minted);
    s.testCases := MarkEvaluated(s.testCases, tc.id);
    r := Ok(EvalMsg(id, reply.value, tc.id, config, pv.versionNumber));
    assert s.results[|s.results| - 1] == stored;
  }

  /**
   * Message `j` answers config `j`, whose model is registered, for case `tc`
   * at prompt `pv`, and reports a stored result.
   */
  predicate AllAnswered(msgs: seq<TestResultMsg>, configs: seq<WorkspaceConfig>, results: seq<TestResult>,
                        models: map<string, ModelConfig>, tc: TestCase, pv: Prompt)
  {
    && |msgs| == |configs|
    && forall j :: 0 <= j < |configs| ==>
         configs[j].modelConfigName in models && Answers(msgs[j], tc, configs[j], pv) && Stored(results, msgs[j])
  }

  /** Message `j` carries the model's reply to `messages` under config `j`. */
  predicate Replied(s: Service, msgs: seq<TestResultMsg>, configs: seq<WorkspaceConfig>, messages: seq<Message>)
    reads s.providers
  {
    && |msgs| == |configs|
    && forall j :: 0 <= j < |configs| ==>
         configs[j].modelConfigName in s.models
         && s.InferSync(Request(s.models[configs[j].modelConfigName], messages, configs[j])) == Ok(msgs[j].response)
  }

  /**
   * Config `config` gets no reply to `messages` from the registered models
   * `models`, the providers `registry` and the language model `llm`: its
   * model is not registered, its provider type is not, or the provider gives
   * no answer.
   */
  predicate Refused(models: map<string, ModelConfig>, registry: map<ProviderType, Responder>, llm: Llm,
                    config: WorkspaceConfig, messages: seq<Message>)
  {
    config.modelConfigName !in models
    || var req := Request(models[config.modelConfigName], messages, config);
       req.modelConfig.providerType !in registry || llm(registry[req.modelConfig.providerType], req).None?
  }

  /** Refused is exactly a missing model or a failed InferSync of the service. */
  lemma RefusedMeans(s: Service, config: WorkspaceConfig, messages: seq<Message>)
    ensures Refused(s.models, s.providers.providers, s.llm, config, messages) <==>
      config.modelConfigName !in s.models || s.InferSync(Request(s.models[config.modelConfigName], messages, config)).Err?
  {
  }

  lemma AllAnsweredGrows(msgs: seq<TestResultMsg>, configs: seq<WorkspaceConfig>, a: seq<TestResult>, b: seq<TestResult>,
                         models: map<string, ModelConfig>, tc: TestCase, pv: Prompt)
    requires a <= b && AllAnswered(msgs, configs, a, models, tc, pv)
    ensures AllAnswered(msgs, configs, b, models, tc, pv)
  {
    forall j | 0 <= j < |configs| ensures Stored(b, msgs[j]) {
      StoredGrows(a, b, msgs[j]);
    }
  }

  lemma AllAnsweredAppend(msgs: seq<TestResultMsg>, configs: seq<WorkspaceConfig>, results: seq<TestResult>,
                          models: map<string, ModelConfig>, tc: TestCase, pv: Prompt, m: TestResultMsg, c: WorkspaceConfig)
    requires AllAnswered(msgs, configs, results, models, tc, pv) && AllAnswered([m], [c], results, models, tc, pv)
    ensures AllAnswered(msgs + [m], configs + [c], results, models, tc, pv)
  {
  }

  lemma RepliedAppend(s: Service, msgs: seq<TestResultMsg>, configs: seq<WorkspaceConfig>, messages: seq<Message>,
                      m: TestResultMsg, c: WorkspaceConfig)
    requires Replied(s, msgs, configs, messages) && Replied(s, [m], [c], messages)
    ensures Replied(s, msgs + [m], configs + [c], messages)
  {
  }

  /**
   * One goroutine of processTestCaseWithConfigs: the config's model must be
   * registered, then processSingleConfig runs.
   */
  method RunConfig(s: Service, tc: TestCase, pv: Prompt, messages: seq<Message>, config: WorkspaceConfig)
    returns (r: Result<TestResultMsg>)
    requires s.Valid()
    modifies s`results, s`testCases, s`minted
    ensures s.Valid()
    ensures old(s.results) <= s.results
    ensures config.modelConfigName !in s.models ==> r == Err(Unknown) && s.results == old(s.results) && s.testCases == old(s.testCases)
    ensures r.Err? ==> r.code == Unknown && Refused(s.models, s.providers.providers, s.llm, config, messages)
    ensures r.Ok? ==> AllAnswered([r.value], [config], s.results, s.models, tc, pv)
    ensures r.Ok? && !tc.hasBeenEvaluated ==>
              Replied(s, [r.value], [config], messages) && s.testCases == MarkEvaluated(old(s.testCases), tc.id)
    ensures s.testCases == old(s.testCases) || s.testCases == MarkEvaluated(old(s.testCases), tc.id)
    ensures Refused(s.models, s.providers.providers, s.llm, config, messages) ==>
              s.results == old(s.results) && s.testCases == old(s.testCases)
  {
    if config.modelConfigName !in s.models {
      return Err(Unknown);
    }
    RefusedMeans(s, config, messages);
    r := ProcessSingleConfig(s, tc, pv, messages, config, s.models[config.modelConfigName]);
  }

  /**
   * processTestCaseWithConfigs: the case's prompt is filled in once, then
   * every config runs; a config whose model is not registered, or whose run
   * fails, fails the whole call (results stored by the others stay). A
   * missing prompt is a nil dereference.
   */
  method ProcessTestCaseWithConfigs(s: Service, tc: TestCase, prompt: Option<Prompt>, system: Option<SystemPrompt>, configs: seq<WorkspaceConfig>)
    returns (r: Result<seq<TestResultMsg>>)
    requires s.Valid()
    modifies s`results, s`testCases, s`minted
    ensures s.Valid()
    ensures old(s.results) <= s.results
    ensures prompt.None? ==> r == Err(Crash) && s.results == old(s.results) && s.testCases == old(s.testCases)
    ensures prompt.Some? ==> r.Ok? || r == Err(Unknown)
    ensures prompt.Some? && (exists i :: 0 <= i < |configs| && configs[i].modelConfigName !in s.models) ==> r == Err(Unknown)
    ensures prompt.Some? && r.Err? ==>
              exists i :: 0 <= i < |configs| && Refused(s.models, s.providers.providers, s.llm, configs[i], PromptMessages(tc, prompt.value, system, |configs|))
    ensures r.Ok? ==> prompt.Some? && AllAnswered(r.value, configs, s.results, s.models, tc, prompt.value)
    ensures r.Ok? && !tc.hasBeenEvaluated ==> Replied(s, r.value, configs, PromptMessages(tc, prompt.value, system, |configs|))
    ensures s.testCases == old(s.testCases) || s.testCases == MarkEvaluated(old(s.testCases), tc.id)
    ensures r.Ok? && !tc.hasBeenEvaluated && configs != [] ==> s.testCases == MarkEvaluated(old(s.testCases), tc.id)
    ensures prompt.Some? && (forall i :: 0 <= i < |configs| ==> Refused(s.models, s.providers.providers, s.llm, configs[i], PromptMessages(tc, prompt.value, system, |configs|))) ==>
              s.results == old(s.results) && s.testCases == old(s.testCases)
  {
    if prompt.None? {
      return Err(Crash);
    }
    var pv := prompt.value;
    var vars := PrepareVariables(tc);
    var promptStr := ReplacePromptVariables(pv.content, vars);
    var messages := BaseMessages(system, promptStr, |configs| > CACHE_THRESHOLD);
    assert messages == PromptMessages(tc, pv, system, |configs|);
    r := RunConfigs(s, tc, pv, messages, configs);
  }

  /**
   * The fan-out of processTestCaseWithConfigs, run one config after the
   * other: every config gets `messages`; any failure fails the call, and
   * when no config got a reply nothing is stored.
   */
  method RunConfigs(s: Service, tc: TestCase, pv: Prompt, messages: seq<Message>, configs: seq<WorkspaceConfig>)
    returns (r: Result<seq<TestResultMsg>>)
    requires s.Valid()
    modifies s`results, s`testCases, s`minted
    ensures s.Valid()
    ensures old(s.results) <= s.results
    ensures r.Ok? || r == Err(Unknown)
    ensures (exists i :: 0 <= i < |configs| && configs[i].modelConfigName !in s.models) ==> r == Err(Unknown)
    ensures r.Err? ==> exists i :: 0 <= i < |configs| && Refused(s.models, s.providers.providers, s.llm, configs[i], messages)
    ensures r.Ok? ==> AllAnswered(r.value, configs, s.results, s.models, tc, pv)
    ensures r.Ok? && !tc.hasBeenEvaluated ==> Replied(s, r.value, configs, messages)
    ensures s.testCases == old(s.testCases) || s.testCases == MarkEvaluated(old(s.testCases), tc.id)
    ensures r.Ok? && !tc.hasBeenEvaluated && configs != [] ==> s.testCases == MarkEvaluated(old(s.testCases), tc.id)
    ensures (forall i :: 0 <= i < |configs| ==> Refused(s.models, s.providers.providers, s.llm, configs[i], messages)) ==>
              s.results == old(s.results) && s.testCases == old(s.testCases)
  {
    ghost var start := s.testCases;
    var results: seq<TestResultMsg> := [];
    var failed := false;
    ghost var answered, answerer := false, 0;
    for i := 0 to |configs|
      invariant s.Valid()
      invariant failed ==> exists j :: 0 <= j < i && Refused(s.models, s.providers.providers, s.llm, configs[j], messages)
      invariant old(s.results) <= s.results
      invariant s.testCases == start || s.testCases == MarkEvaluated(start, tc.id)
      invariant !failed ==> AllAnswered(results, configs[..i], s.results, s.models, tc, pv)
      invariant !failed && !tc.hasBeenEvaluated ==> Replied(s, results, configs[..i], messages)
      invariant !failed && !tc.hasBeenEvaluated && i > 0 ==> s.testCases == MarkEvaluated(start, tc.id)
      invariant answered ==> answerer < i && !Refused(s.models, s.providers.providers, s.llm, configs[answerer], messages)
      invariant !answered ==> s.results == old(s.results) && s.testCases == start
    {
      ghost var resultsBefore := s.results;
      var one := RunConfig(s, tc, pv, messages, configs[i]);
      assert configs[..i + 1] == configs[..i] + [configs[i]];
      if one.Err? {
        failed := true;
      } else if !failed {
        AllAnsweredGrows(results, configs[..i], resultsBefore, s.results, s.models, tc, pv);
        AllAnsweredAppend(results, configs[..i], s.results, s.models, tc, pv, one.value, configs[i]);
        if !tc.hasBeenEvaluated {
          RepliedAppend(s, results, configs[..i], messages, one.value, configs[i]);
        }
        results := results + [one.value];
      }
      if !answered && !Refused(s.models, s.providers.providers, s.llm, configs[i], messages) {
        answered, answerer := true, i;
      }
      MarkEvaluatedTwice(start, tc.id);
    }
    assert configs[..|configs|] == configs;
    if failed {
      return Err(Unknown);
    }
    r := Ok(results);
  }

  // ---------------------------------------------------------------------
  // The handlers
  // ---------------------------------------------------------------------

  /** The test "is a system prompt of workspace `id`". */
  function SystemPromptOf(id: string): SystemPrompt -> bool {
    (p: SystemPrompt) => p.workspaceId == id
  }

  /**
   * getWorkspace: the workspace row with its prompts, configs and system
   * prompts preloaded, or nothing when no row has the id.
   */
  method LoadWorkspace(s: Service, id: string) returns (w: Option<Workspace>)
    ensures w.None? <==> !HasKey(s.workspaces, WorkspaceKey, id)
    ensures w.Some? ==>
              && fresh(w.value)
              && Some(w.value.Row()) == Lookup(s.workspaces, WorkspaceKey, id)
              && w.value.id == id
              && w.value.prompts == Filter(s.prompts, PromptOf(id))
              && w.value.workspaceConfigs == Filter(s.configs, ConfigOf(id))
              && w.value.systemPrompts == Filter(s.systemPrompts, SystemPromptOf(id))
  {
    var row := Lookup(s.workspaces, WorkspaceKey, id);
    if row.None? {
      return None;
    }
    var loaded := new Workspace.Load(row.value, Filter(s.prompts, PromptOf(id)), Filter(s.configs, ConfigOf(id)),
                                     Filter(s.systemPrompts, SystemPromptOf(id)));
    return Some(loaded);
  }

  /**
   * Evaluate: loads the workspace with its prompts, configs and system
   * prompts, gets or creates the test case, and runs the configs that have
   * no stored result for the case at the requested version (compared as an
   * int32). `known` says whether the workspace exists, `configs` are its
   * configs, `prompt` its prompt of the version, `tc` the case that was run
   * and `pending` the configs run. After a successful call with a version
   * below 2^31, no active config of the workspace is still to run for the
   * case.
   */
  method Evaluate(s: Service, workspaceId: string, msg: Option<TestCaseMsg>, version: u32, systemVersion: u32)
    returns (r: Result<seq<TestResultMsg>>, ghost known: bool, ghost tc: TestCase, ghost prompt: Option<Prompt>,
             ghost system: Option<SystemPrompt>, ghost configs: seq<WorkspaceConfig>, ghost pending: seq<WorkspaceConfig>,
             ghost cases: seq<TestCase>)
    requires s.Valid()
    modifies s`results, s`testCases, s`minted
    ensures s.Valid()
    ensures old(s.results) <= s.results
    ensures known == old(HasKey(s.workspaces, WorkspaceKey, workspaceId))
    ensures configs == old(Filter(s.configs, ConfigOf(workspaceId)))
    ensures prompt == old(PromptWithVersion(Filter(s.prompts, PromptOf(workspaceId)), version))
    ensures system == old(SystemPromptWithVersion(Filter(s.systemPrompts, SystemPromptOf(workspaceId)), systemVersion))
    ensures !known ==> r == Err(Unknown) && s.results == old(s.results) && s.testCases == old(s.testCases)
    ensures known && msg.None? ==> r == Err(Crash) && s.results == old(s.results) && s.testCases == old(s.testCases)
    ensures known && msg.Some? ==>
              && tc.hasBeenEvaluated && !NeedsUpdate(tc, msg.value.values)
              && (old(Lookup(s.testCases, CaseKey, msg.value.id)).Some? ==> tc.id == msg.value.id)
              && pending == Filter(configs, Pending(old(s.results), tc.id, ToInt32(version)))
              && (prompt.None? ==> r == Err(Crash) && s.results == old(s.results))
              && (prompt.Some? ==> r.Ok? || r == Err(Unknown))
    ensures known && msg.Some? ==>
              && Lookup(cases, CaseKey, tc.id) == Some(tc)
              && (cases == old(s.testCases) || cases == old(s.testCases) + [tc] || cases == Upsert(old(s.testCases), CaseKey, tc))
              && (s.testCases == cases || s.testCases == MarkEvaluated(cases, tc.id))
    ensures known && msg.Some? && prompt.Some? && r.Err? ==>
              exists i :: 0 <= i < |pending| && Refused(s.models, s.providers.providers, s.llm, pending[i], PromptMessages(tc, prompt.value, system, |pending|))
    ensures r.Ok? ==> prompt.Some? && AllAnswered(r.value, pending, s.results, s.models, tc, prompt.value)
    ensures r.Ok? && version < TWO_31 ==> Filter(configs, Pending(s.results, tc.id, ToInt32(version))) == []
  {
    known := HasKey(s.workspaces, WorkspaceKey, workspaceId);
    configs := Filter(s.configs, ConfigOf(workspaceId));
    prompt := PromptWithVersion(Filter(s.prompts, PromptOf(workspaceId)), version);
    system := SystemPromptWithVersion(Filter(s.systemPrompts, SystemPromptOf(workspaceId)), systemVersion);
    tc, pending, cases := TestCase("", "", map[], false), [], s.testCases;
    var loaded := LoadWorkspace(s, workspaceId);
    if loaded.None? {
      r := Err(Unknown);
      return;
    }
    var w := loaded.value;
    var got := GetOrCreateTestCase(s, msg, w.id);
    if got.Err? {
      r := Err(got.code);
      return;
    }
    var testCase := got.value;
    tc, cases := testCase, s.testCases;
    assert cases == old(s.testCases) || cases == old(s.testCases) + [tc] || cases == Upsert(old(s.testCases), CaseKey, tc);
    r, prompt, system, pending := RunPending(s, w, testCase, version, systemVersion);
  }

  /**
   * The rest of Evaluate once the workspace is loaded and the case is known:
   * the prompt and system prompt of the requested versions, and the configs
   * still to run.
   */
  method RunPending(s: Service, w: Workspace, tc: TestCase, version: u32, systemVersion: u32)
    returns (r: Result<seq<TestResultMsg>>, ghost prompt: Option<Prompt>, ghost system: Option<SystemPrompt>,
             ghost pending: seq<WorkspaceConfig>)
    requires s.Valid()
    modifies s`results, s`testCases, s`minted
    ensures s.Valid()
    ensures old(s.results) <= s.results
    ensures prompt == PromptWithVersion(w.prompts, version)
    ensures system == SystemPromptWithVersion(w.systemPrompts, systemVersion)
    ensures pending == Filter(w.workspaceConfigs, Pending(old(s.results), tc.id, ToInt32(version)))
    ensures prompt.None? ==> r == Err(Crash) && s.results == old(s.results) && s.testCases == old(s.testCases)
    ensures prompt.Some? ==> r.Ok? || r == Err(Unknown)
    ensures prompt.Some? && r.Err? ==>
              exists i :: 0 <= i < |pending| && Refused(s.models, s.providers.providers, s.llm, pending[i], PromptMessages(tc, prompt.value, system, |pending|))
    ensures r.Ok? ==> prompt.Some? && AllAnswered(r.value, pending, s.results, s.models, tc, prompt.value)
    ensures r.Ok? && version < TWO_31 ==> Filter(w.workspaceConfigs, Pending(s.results, tc.id, ToInt32(version))) == []
    ensures s.testCases == old(s.testCases) || s.testCases == MarkEvaluated(old(s.testCases), tc.id)
  {
    var found := w.PromptByVersion(version);
    prompt := found;
    var systemPrompt := w.SystemPromptByVersion(systemVersion);
    system := systemPrompt;
    ghost var before := s.results;
    var configs := GetActiveWorkspaceConfigs(s, w, tc.id, ToInt32(version));
    pending := configs;
    r := ProcessTestCaseWithConfigs(s, tc, found, systemPrompt, configs);
    if r.Ok? && version < TWO_31 {
      Settled(w.workspaceConfigs, configs, before, s.results, tc, version, found.value, r.value, s.models);
    }
  }

  /** The configs still to run before a successful call are answered by it, and the rest were answered already. */
  lemma Settled(all: seq<WorkspaceConfig>, pending: seq<WorkspaceConfig>, before: seq<TestResult>, after: seq<TestResult>,
                tc: TestCase, version: u32, pv: Prompt, msgs: seq<TestResultMsg>, models: map<string, ModelConfig>)
    requires version < TWO_31 && pv.versionNumber == version && before <= after
    requires pending == Filter(all, Pending(before, tc.id, ToInt32(version)))
    requires AllAnswered(msgs, pending, after, models, tc, pv)
    ensures Filter(all, Pending(after, tc.id, ToInt32(version))) == []
  {
    var caseId := tc.id;
    FilterMembers(all, Pending(before, caseId, ToInt32(version)));
    forall i | 0 <= i < |all| && all[i].active ensures HasResult(after, caseId, all[i].id, ToInt32(version)) {
      var c := all[i];
      if HasResult(before, caseId, c.id, ToInt32(version)) {
        HasResultGrows(before, after, caseId, c.id, ToInt32(version));
      } else {
        assert c in pending;
        var j :| 0 <= j < |pending| && pending[j] == c;
        var m := msgs[j];
        var k :| 0 <= k < |after| && after[k].id == m.id && after[k].response == m.response
          && IsResultFor(m.testCaseId, m.workspaceConfigId, m.promptVersionNumber)(after[k]);
        assert IsResultFor(caseId, c.id, ToInt32(version))(after[k]);
      }
    }
    AnsweredNotPending(all, after, caseId, ToInt32(version));
  }

  /**
   * Every message answers config `active` at version `version` for one of
   * `cases`, and reports a stored result.
   */
  predicate Generated(msgs: seq<TestResultMsg>, cases: seq<TestCase>, results: seq<TestResult>, active: WorkspaceConfig, version: u32) {
    forall m :: m in msgs ==>
      && m.workspaceConfigId == active.id && m.promptVersionNumber == version
      && Stored(results, m)
      && exists c :: c in cases && m.testCaseId == c.id
  }

  /** The cases whose run succeeded: `cases[i]` for each `i` with `ran[i]`, in order. */
  function Kept(cases: seq<TestCase>, ran: seq<bool>): (r: seq<TestCase>)
    requires |ran| == |cases|
    ensures |r| <= |cases|
    decreases |cases|
  {
    if cases == [] then []
    else
      var n := |cases| - 1;
      Kept(cases[..n], ran[..n]) + (if ran[n] then [cases[n]] else [])
  }

  /** When every case ran, every case is kept. */
  lemma {:induction false} KeptAll(cases: seq<TestCase>, ran: seq<bool>)
    requires |ran| == |cases| && forall i :: 0 <= i < |ran| ==> ran[i]
    ensures Kept(cases, ran) == cases
    decreases |cases|
  {
    if cases != [] {
      var n := |cases| - 1;
      KeptAll(cases[..n], ran[..n]);
      assert cases[..n] + [cases[n]] == cases;
    }
  }

  /** One more case, run or skipped. */
  lemma KeptStep(cases: seq<TestCase>, ran: seq<bool>, c: TestCase, b: bool)
    requires |ran| == |cases|
    ensures Kept(cases + [c], ran + [b]) == Kept(cases, ran) + (if b then [c] else [])
  {
    assert (cases + [c])[..|cases|] == cases;
    assert (ran + [b])[..|ran|] == ran;
  }

  /** Message `j` answers config `active` at `version` for the `j`-th kept case, and reports a stored result. */
  predicate CasesAnswered(msgs: seq<TestResultMsg>, kept: seq<TestCase>, results: seq<TestResult>, active: WorkspaceConfig, version: u32) {
    && |msgs| == |kept|
    && forall j :: 0 <= j < |kept| ==>
         msgs[j] == EvalMsg(msgs[j].id, msgs[j].response, kept[j].id, active, version) && Stored(results, msgs[j])
  }

  lemma CasesAnsweredGrows(msgs: seq<TestResultMsg>, kept: seq<TestCase>, a: seq<TestResult>, b: seq<TestResult>,
                           active: WorkspaceConfig, version: u32)
    requires a <= b && CasesAnswered(msgs, kept, a, active, version)
    ensures CasesAnswered(msgs, kept, b, active, version)
  {
    forall j | 0 <= j < |kept| ensures Stored(b, msgs[j]) {
      StoredGrows(a, b, msgs[j]);
    }
  }

  lemma CasesAnsweredAppend(msgs: seq<TestResultMsg>, kept: seq<TestCase>, results: seq<TestResult>,
                            active: WorkspaceConfig, version: u32, c: TestCase, m: TestResultMsg)
    requires CasesAnswered(msgs, kept, results, active, version)
    requires m == EvalMsg(m.id, m.response, c.id, active, version) && Stored(results, m)
    ensures CasesAnswered(msgs + [m], kept + [c], results, active, version)
  {
    var msgs', kept' := msgs + [m], kept + [c];
    forall j | 0 <= j < |kept'|
      ensures msgs'[j] == EvalMsg(msgs'[j].id, msgs'[j].response, kept'[j].id, active, version) && Stored(results, msgs'[j])
    {
      if j < |kept| {
        assert msgs'[j] == msgs[j] && kept'[j] == kept[j];
      }
    }
  }

  /** Every kept case is one of the cases. */
  lemma {:induction false} KeptIn(cases: seq<TestCase>, ran: seq<bool>)
    requires |ran| == |cases|
    ensures forall c :: c in Kept(cases, ran) ==> c in cases
    decreases |cases|
  {
    if cases != [] {
      var n := |cases| - 1;
      KeptIn(cases[..n], ran[..n]);
      assert forall c :: c in cases[..n] ==> c in cases;
    }
  }

  /** Answers to kept cases are answers to some of the cases. */
  lemma KeptGenerated(msgs: seq<TestResultMsg>, cases: seq<TestCase>, ran: seq<bool>, results: seq<TestResult>,
                      active: WorkspaceConfig, version: u32)
    requires |ran| == |cases| && CasesAnswered(msgs, Kept(cases, ran), results, active, version)
    ensures |msgs| <= |cases| && Generated(msgs, cases, results, active, version)
  {
    var kept := Kept(cases, ran);
    KeptIn(cases, ran);
    forall m | m in msgs ensures exists c :: c in cases && m.testCaseId == c.id {
      var j :| 0 <= j < |msgs| && msgs[j] == m;
      assert kept[j] in kept;
    }
  }

  /**
   * The ids `marked` are those of cases that ran (`kept`), and among them
   * every case that was not yet evaluated.
   */
  predicate MarkedBy(marked: seq<string>, kept: seq<TestCase>) {
    && (forall x :: x in marked ==> exists c :: c in kept && c.id == x)
    && (forall c :: c in kept && !c.hasBeenEvaluated ==> c.id in marked)
  }

  lemma MarkedByStep(marked: seq<string>, kept: seq<TestCase>, c: TestCase, add: bool)
    requires MarkedBy(marked, kept) && (!c.hasBeenEvaluated ==> add)
    ensures MarkedBy(if add then marked + [c.id] else marked, kept + [c])
  {
    assert c in kept + [c];
    assert forall d :: d in kept ==> d in kept + [c];
  }

  /**
   * The marked ids after one more case: a case that ran and changed the
   * table, or was not evaluated yet, joins them.
   */
  lemma MarkStep(start: seq<TestCase>, marked: seq<string>, kept: seq<TestCase>, before: seq<TestCase>, after: seq<TestCase>,
                 c: TestCase, ok: bool)
    returns (marked': seq<string>)
    requires before == MarkAll(start, marked) && MarkedBy(marked, kept)
    requires after == before || after == MarkEvaluated(before, c.id)
    requires !ok ==> after == before
    requires ok && !c.hasBeenEvaluated ==> after == MarkEvaluated(before, c.id)
    ensures after == MarkAll(start, marked') && MarkedBy(marked', kept + (if ok then [c] else []))
  {
    var add := ok && (!c.hasBeenEvaluated || after != before);
    marked' := if add then marked + [c.id] else marked;
    if ok {
      MarkedByStep(marked, kept, c, add);
    } else {
      assert kept + [] == kept;
    }
    if add {
      assert (marked + [c.id])[..|marked|] == marked;
    }
  }

  /**
   * One case of SyntheticGeneration's loop: the case runs against `active`
   * alone. With a prompt the run answers or the config got no reply; without
   * one it crashes.
   */
  method RunCase(s: Service, tc: TestCase, prompt: Option<Prompt>, system: Option<SystemPrompt>,
                 active: WorkspaceConfig, ghost version: u32)
    returns (r: Result<TestResultMsg>)
    requires s.Valid()
    requires prompt.Some? ==> prompt.value.versionNumber == version
    modifies s`results, s`testCases, s`minted
    ensures s.Valid()
    ensures old(s.results) <= s.results
    ensures prompt.None? ==> r == Err(Crash)
    ensures prompt.Some? ==> r.Ok? || (r == Err(Unknown) && Refused(s.models, s.providers.providers, s.llm, active, PromptMessages(tc, prompt.value, system, 1)))
    ensures r.Ok? ==> r.value == EvalMsg(r.value.id, r.value.response, tc.id, active, version) && Stored(s.results, r.value)
    ensures r.Err? ==> s.results == old(s.results) && s.testCases == old(s.testCases)
    ensures s.testCases == old(s.testCases) || s.testCases == MarkEvaluated(old(s.testCases), tc.id)
    ensures r.Ok? && !tc.hasBeenEvaluated ==> s.testCases == MarkEvaluated(old(s.testCases), tc.id)
  {
    var one := ProcessTestCaseWithConfigs(s, tc, prompt, system, [active]);
    if one.Err? {
      return Err(one.code);
    }
    assert Answers(one.value[0], tc, active, prompt.value);
    r := Ok(one.value[0]);
  }

  /** Config `active` gets no reply for case `tc` run alone at prompt `prompt` (and none is due without a prompt). */
  predicate CaseRefused(models: map<string, ModelConfig>, registry: map<ProviderType, Responder>, llm: Llm,
                        active: WorkspaceConfig, tc: TestCase, prompt: Option<Prompt>, system: Option<SystemPrompt>)
  {
    prompt.Some? && Refused(models, registry, llm, active, PromptMessages(tc, prompt.value, system, 1))
  }

  /** One more case, answered by `one` or skipped, keeps the answers in step with the kept cases. */
  lemma AnsweredStep(results: seq<TestResultMsg>, cases: seq<TestCase>, i: nat, ran: seq<bool>, before: seq<TestResult>,
                     after: seq<TestResult>, active: WorkspaceConfig, version: u32, one: Result<TestResultMsg>)
    requires i < |cases| && |ran| == i && before <= after
    requires CasesAnswered(results, Kept(cases[..i], ran), before, active, version)
    requires one.Ok? ==> one.value == EvalMsg(one.value.id, one.value.response, cases[i].id, active, version) && Stored(after, one.value)
    ensures Kept(cases[..i + 1], ran + [one.Ok?]) == Kept(cases[..i], ran) + (if one.Ok? then [cases[i]] else [])
    ensures CasesAnswered(if one.Ok? then results + [one.value] else results, Kept(cases[..i + 1], ran + [one.Ok?]), after, active, version)
  {
    assert cases[..i + 1] == cases[..i] + [cases[i]];
    KeptStep(cases[..i], ran, cases[i], one.Ok?);
    CasesAnsweredGrows(results, Kept(cases[..i], ran), before, after, active, version);
    if one.Ok? {
      CasesAnsweredAppend(results, Kept(cases[..i], ran), after, active, version, cases[i], one.value);
    }
  }

  /** One more case, skipped only when refused, keeps every skipped case refused. */
  lemma RefusedStep(models: map<string, ModelConfig>, registry: map<ProviderType, Responder>, llm: Llm, active: WorkspaceConfig,
                    cases: seq<TestCase>, i: nat, ran: seq<bool>, ok: bool, prompt: Option<Prompt>, system: Option<SystemPrompt>)
    requires i < |cases| && |ran| == i
    requires forall j :: 0 <= j < i && !ran[j] ==> CaseRefused(models, registry, llm, active, cases[j], prompt, system)
    requires !ok ==> CaseRefused(models, registry, llm, active, cases[i], prompt, system)
    ensures forall j :: 0 <= j < i + 1 && !(ran + [ok])[j] ==> CaseRefused(models, registry, llm, active, cases[j], prompt, system)
  {
  }

  /**
   * One turn of SyntheticGeneration's loop: case `i` runs; a crash ends the
   * request, an answer is appended, and a case that got no reply is skipped.
   */
  method RunStep(s: Service, cases: seq<TestCase>, i: nat, prompt: Option<Prompt>, system: Option<SystemPrompt>,
                 active: WorkspaceConfig, ghost version: u32, results: seq<TestResultMsg>, ghost ran: seq<bool>,
                 ghost start: seq<TestCase>, ghost marked: seq<string>)
    returns (crashed: bool, results': seq<TestResultMsg>, ghost ran': seq<bool>, ghost marked': seq<string>)
    requires s.Valid() && i < |cases| && |ran| == i
    requires prompt.Some? ==> prompt.value.versionNumber == version
    requires CasesAnswered(results, Kept(cases[..i], ran), s.results, active, version)
    requires forall j :: 0 <= j < i && !ran[j] ==> CaseRefused(s.models, s.providers.providers, s.llm, active, cases[j], prompt, system)
    requires s.testCases == MarkAll(start, marked) && MarkedBy(marked, Kept(cases[..i], ran))
    modifies s`results, s`testCases, s`minted
    ensures s.Valid() && old(s.results) <= s.results
    ensures crashed <==> prompt.None?
    ensures crashed ==> s.results == old(s.results) && s.testCases == old(s.testCases)
    ensures !crashed ==> && |ran'| == i + 1
                         && CasesAnswered(results', Kept(cases[..i + 1], ran'), s.results, active, version)
                         && forall j :: 0 <= j < i + 1 && !ran'[j] ==> CaseRefused(s.models, s.providers.providers, s.llm, active, cases[j], prompt, system)
    ensures !crashed ==> s.testCases == MarkAll(start, marked') && MarkedBy(marked', Kept(cases[..i + 1], ran'))
  {
    ghost var resultsBefore, tableBefore := s.results, s.testCases;
    var one := RunCase(s, cases[i], prompt, system, active, version);
    if one.Err? && one.code == Crash {
      return true, results, ran, marked;
    }
    crashed := false;
    ran' := ran + [one.Ok?];
    results' := if one.Ok? then results + [one.value] else results;
    AnsweredStep(results, cases, i, ran, resultsBefore, s.results, active, version, one);
    RefusedStep(s.models, s.providers.providers, s.llm, active, cases, i, ran, one.Ok?, prompt, system);
    marked' := MarkStep(start, marked, Kept(cases[..i], ran), tableBefore, s.testCases, cases[i], one.Ok?);
  }

  /** After the last case: the answers are for the cases, and every case is answered when none is refused. */
  lemma CasesDone(results: seq<TestResultMsg>, cases: seq<TestCase>, ran: seq<bool>, table: seq<TestResult>,
                  models: map<string, ModelConfig>, registry: map<ProviderType, Responder>, llm: Llm,
                  active: WorkspaceConfig, prompt: Option<Prompt>, system: Option<SystemPrompt>, version: u32)
    requires |ran| == |cases| && CasesAnswered(results, Kept(cases, ran), table, active, version)
    requires forall i :: 0 <= i < |cases| && !ran[i] ==> CaseRefused(models, registry, llm, active, cases[i], prompt, system)
    ensures |results| <= |cases| && Generated(results, cases, table, active, version)
    ensures (forall i :: 0 <= i < |cases| ==> !CaseRefused(models, registry, llm, active, cases[i], prompt, system)) ==>
              |results| == |cases| && forall i :: 0 <= i < |cases| ==> results[i].testCaseId == cases[i].id
  {
    KeptGenerated(results, cases, ran, table, active, version);
    if forall i :: 0 <= i < |cases| ==> !CaseRefused(models, registry, llm, active, cases[i], prompt, system) {
      assert forall i :: 0 <= i < |ran| ==> ran[i];
      KeptAll(cases, ran);
      forall i | 0 <= i < |cases| ensures results[i].testCaseId == cases[i].id {
        assert results[i] == EvalMsg(results[i].id, results[i].response, cases[i].id, active, version);
      }
    }
  }

  /**
   * SyntheticGeneration's loop: each case runs against `active`; a case
   * whose run fails is skipped and the loop goes on with the next, a crash
   * ends the request. `ran[i]` says whether case `i` contributed its result:
   * the response holds, in case order, one answer per case that ran, and a
   * case is skipped only when `active` got no reply for it.
   */
  method RunCases(s: Service, cases: seq<TestCase>, prompt: Option<Prompt>, system: Option<SystemPrompt>,
                  active: WorkspaceConfig, ghost version: u32)
    returns (r: Result<seq<TestResultMsg>>, ghost ran: seq<bool>, ghost marked: seq<string>)
    requires s.Valid()
    requires prompt.Some? ==> prompt.value.versionNumber == version
    modifies s`results, s`testCases, s`minted
    ensures s.Valid()
    ensures old(s.results) <= s.results
    ensures prompt.None? && cases != [] ==> r == Err(Crash)
    ensures prompt.Some? || cases == [] ==> r.Ok?
    ensures r.Ok? ==> |r.value| <= |cases| && Generated(r.value, cases, s.results, active, version)
    ensures r.Ok? ==> |ran| == |cases| && CasesAnswered(r.value, Kept(cases, ran), s.results, active, version)
    ensures r.Ok? ==> forall i :: 0 <= i < |cases| && !ran[i] ==> CaseRefused(s.models, s.providers.providers, s.llm, active, cases[i], prompt, system)
    ensures r.Ok? && (forall i :: 0 <= i < |cases| ==> !CaseRefused(s.models, s.providers.providers, s.llm, active, cases[i], prompt, system)) ==>
              |r.value| == |cases| && forall i :: 0 <= i < |cases| ==> r.value[i].testCaseId == cases[i].id
    ensures r.Err? ==> s.results == old(s.results) && s.testCases == old(s.testCases)
    ensures r.Ok? ==> s.testCases == MarkAll(old(s.testCases), marked) && MarkedBy(marked, Kept(cases, ran))
  {
    var results: seq<TestResultMsg> := [];
    ran, marked := [], [];
    for i := 0 to |cases|
      invariant s.Valid()
      invariant old(s.results) <= s.results
      invariant prompt.None? ==> i == 0
      invariant |ran| == i
      invariant CasesAnswered(results, Kept(cases[..i], ran), s.results, active, version)
      invariant forall j :: 0 <= j < i && !ran[j] ==> CaseRefused(s.models, s.providers.providers, s.llm, active, cases[j], prompt, system)
      invariant i == 0 ==> s.results == old(s.results) && marked == []
      invariant s.testCases == MarkAll(old(s.testCases), marked) && MarkedBy(marked, Kept(cases[..i], ran))
    {
      var crashed;
      crashed, results, ran, marked := RunStep(s, cases, i, prompt, system, active, version, results, ran, old(s.testCases), marked);
      if crashed {
        return Err(Crash), ran, marked;
      }
    }
    assert cases[..|cases|] == cases;
    CasesDone(results, cases, ran, s.results, s.models, s.providers.providers, s.llm, active, prompt, system, version);
    r := Ok(results);
  }

  /**
   * SyntheticGeneration: every test case of the workspace, as loaded at the
   * start, runs against the workspace's first active config; a case whose
   * run fails is skipped. With no prompt of the requested version the first
   * case dereferences nil. `known`, `active`, `prompt`, `system` and `cases`
   * are the workspace's existence, first active config, prompt and system
   * prompt of the versions and test cases at the start; `ran[i]` says whether
   * case `i` contributed its answer, which it fails to do only when the
   * config gets no reply for it.
   */
  method SyntheticGeneration(s: Service, workspaceId: string, version: u32, systemVersion: u32)
    returns (r: Result<seq<TestResultMsg>>, ghost known: bool, ghost active: Option<WorkspaceConfig>,
             ghost prompt: Option<Prompt>, ghost system: Option<SystemPrompt>, ghost cases: seq<TestCase>,
             ghost ran: seq<bool>, ghost marked: seq<string>)
    requires s.Valid()
    modifies s`results, s`testCases, s`minted
    ensures s.Valid()
    ensures old(s.results) <= s.results
    ensures known == old(HasKey(s.workspaces, WorkspaceKey, workspaceId))
    ensures active == old(First(Filter(s.configs, ConfigOf(workspaceId)), IsActive))
    ensures prompt == old(PromptWithVersion(Filter(s.prompts, PromptOf(workspaceId)), version))
    ensures cases == old(Filter(s.testCases, CaseOf(workspaceId)))
    ensures !known || active.None? ==> r == Err(Unknown) && s.results == old(s.results) && s.testCases == old(s.testCases)
    ensures known && active.Some? && prompt.None? && cases != [] ==> r == Err(Crash)
    ensures known && active.Some? && (prompt.Some? || cases == []) ==> r.Ok?
    ensures system == old(SystemPromptWithVersion(Filter(s.systemPrompts, SystemPromptOf(workspaceId)), systemVersion))
    ensures r.Ok? ==> active.Some? && |r.value| <= |cases| && Generated(r.value, cases, s.results, active.value, version)
    ensures r.Ok? ==> |ran| == |cases| && CasesAnswered(r.value, Kept(cases, ran), s.results, active.value, version)
    ensures r.Ok? ==> forall i :: 0 <= i < |cases| && !ran[i] ==> CaseRefused(s.models, s.providers.providers, s.llm, active.value, cases[i], prompt, system)
    ensures r.Ok? && (forall i :: 0 <= i < |cases| ==> !CaseRefused(s.models, s.providers.providers, s.llm, active.value, cases[i], prompt, system)) ==>
              |r.value| == |cases| && forall i :: 0 <= i < |cases| ==> r.value[i].testCaseId == cases[i].id
    ensures r.Err? ==> s.results == old(s.results) && s.testCases == old(s.testCases)
    ensures r.Ok? ==> s.testCases == MarkAll(old(s.testCases), marked) && MarkedBy(marked, Kept(cases, ran))
  {
    known := HasKey(s.workspaces, WorkspaceKey, workspaceId);
    active := First(Filter(s.configs, ConfigOf(workspaceId)), IsActive);
    prompt := PromptWithVersion(Filter(s.prompts, PromptOf(workspaceId)), version);
    system := SystemPromptWithVersion(Filter(s.systemPrompts, SystemPromptOf(workspaceId)), systemVersion);
    cases := Filter(s.testCases, CaseOf(workspaceId));
    ran, marked := [], [];
    var loaded := LoadWorkspace(s, workspaceId);
    if loaded.None? {
      r := Err(Unknown);
      return;
    }
    var w := loaded.value;
    var testCases := Filter(s.testCases, CaseOf(w.id));
    var first := GetActiveWorkspaceConfig(w);
    if first.None? {
      r := Err(Unknown);
      return;
    }
    var found := w.PromptByVersion(version);
    var systemPrompt := w.SystemPromptByVersion(systemVersion);
    r, ran, marked := RunCases(s, testCases, found, systemPrompt, first.value, version);
  }
}

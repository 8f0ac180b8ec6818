/**
 * The evaluation service's shared state (the `Service` struct of
 * packages/eval/eval.go): the database tables, the model-config registry, the
 * provider store, the two default model names, and the collaborators the core
 * only calls (the LLM, the XML decoder, HTML unescaping, the id generator).
 */
module EvalService {
  import opened Wrappers
  import opened EvalTypes
  import opened Tables
  import opened Providers
  import opened LlmUtils

  /** llm.ModelType: only LLM configs are offered to clients. */
  datatype ModelType = LLM | Embedding | OtherModelType(name: string)

  /** An entry of the model-config registry. */
  datatype ModelConfig = ModelConfig(providerType: ProviderType, modelName: string, baseUrl: string, modelType: ModelType)

  datatype Role = SystemRole | UserRole

  /** llm.InferMessage. */
  datatype Message = Message(content: string, role: Role, shouldCache: bool)

  /** llm.InferRequest. */
  datatype InferRequest = InferRequest(modelConfig: ModelConfig, messages: seq<Message>, maxTokens: int, temperature: Temperature)

  /** A provider answering a request: the reply text, or nothing when the call fails. */
  type Llm = (Responder, InferRequest) -> Option<string>

  /** The XML decoder filling a reply struct: nothing on a decode error. */
  type Decoder = string -> Option<Decoded>

  /** The id the generator hands out `n`-th; each is longer than every earlier one, so none repeats. */
  function MintedId(n: nat): (id: string)
    ensures |id| == n + 1
  {
    seq(n + 1, _ => 'x')
  }

  function WorkspaceKey(w: WorkspaceRow): string { w.id }
  function ConfigKey(c: WorkspaceConfig): string { c.id }
  function CaseKey(t: TestCase): string { t.id }
  function ResultKey(r: TestResult): string { r.id }

  class Service {
    var workspaces: seq<WorkspaceRow>
    var prompts: seq<Prompt>
    var systemPrompts: seq<SystemPrompt>
    var configs: seq<WorkspaceConfig>
    var testCases: seq<TestCase>
    var results: seq<TestResult>
    var defaultSmallModelConfig: string
    var defaultLargeModelConfig: string
    /** How many ids the generator has handed out. */
    var minted: nat

    const models: map<string, ModelConfig>
    const providers: ProviderStore
    const llm: Llm
    const decode: Decoder
    const unescape: string -> string
    /** The embedded prompt templates. */
    const generatePromptPrompt: string
    const summarizePromptPrompt: string
    const generateTestCasePrompt: string

    /**
     * Every stored key was handed out before the current count (so a new id
     * is fresh), and configs, test cases and results, which only ever get
     * generated ids, never have the empty key.
     */
    ghost predicate Valid()
      reads this
    {
      (forall w :: w in workspaces ==> |w.id| <= minted)
      && (forall c :: c in configs ==> 0 < |c.id| <= minted)
      && (forall t :: t in testCases ==> 0 < |t.id| <= minted)
      && (forall r :: r in results ==> 0 < |r.id| <= minted)
    }

    /** NewService: empty tables, and the defaults "gpt-4-mini" and "gpt-4o". */
    constructor (models: map<string, ModelConfig>, providers: ProviderStore, llm: Llm, decode: Decoder,
                 unescape: string -> string, generatePromptPrompt: string, summarizePromptPrompt: string,
                 generateTestCasePrompt: string)
      ensures Valid()
      ensures workspaces == [] && prompts == [] && systemPrompts == [] && configs == [] && testCases == [] && results == []
      ensures defaultSmallModelConfig == "gpt-4-mini" && defaultLargeModelConfig == "gpt-4o"
      ensures this.models == models && this.providers == providers && this.llm == llm
      ensures this.decode == decode && this.unescape == unescape
      ensures this.generatePromptPrompt == generatePromptPrompt && this.summarizePromptPrompt == summarizePromptPrompt
      ensures this.generateTestCasePrompt == generateTestCasePrompt
    {
      workspaces, prompts, systemPrompts := [], [], [];
      configs, testCases, results := [], [], [];
      defaultSmallModelConfig := "gpt-4-mini";
      defaultLargeModelConfig := "gpt-4o";
      minted := 0;
      this.models := models;
      this.providers := providers;
      this.llm := llm;
      this.decode := decode;
      this.unescape := unescape;
      this.generatePromptPrompt := generatePromptPrompt;
      this.summarizePromptPrompt := summarizePromptPrompt;
      this.generateTestCasePrompt := generateTestCasePrompt;
    }

    /** `xid.New().String()`: an id no stored row has. */
    method NewId() returns (id: string)
      requires Valid()
      modifies this`minted
      ensures Valid() && minted == old(minted) + 1 && id == MintedId(old(minted))
      ensures !HasKey(workspaces, WorkspaceKey, id) && !HasKey(configs, ConfigKey, id)
      ensures !HasKey(testCases, CaseKey, id) && !HasKey(results, ResultKey, id)
      ensures id != ""
    {
      id := MintedId(minted);
      minted := minted + 1;
      assert forall i :: 0 <= i < |workspaces| ==> workspaces[i] in workspaces;
      assert forall i :: 0 <= i < |configs| ==> configs[i] in configs;
      assert forall i :: 0 <= i < |testCases| ==> testCases[i] in testCases;
      assert forall i :: 0 <= i < |results| ==> results[i] in results;
    }

    /**
     * `InferSync`: the provider registered for the request's provider type
     * answers it; an unregistered provider type is an error.
     */
    function InferSync(req: InferRequest): (r: Result<string>)
      reads providers
      ensures providers.GetProvider(req.modelConfig.providerType).None? ==> r.Err?
      ensures r.Ok? <==> exists p :: providers.GetProvider(req.modelConfig.providerType) == Some(p) && llm(p, req).Some?
    {
      match providers.GetProvider(req.modelConfig.providerType)
      case None => Err(Unknown)
      case Some(p) => if llm(p, req).Some? then Ok(llm(p, req).value) else Err(Unknown)
    }

    /** The reply struct with field tags `schema` decoded from `input`. */
    function Parse(input: string, schema: seq<string>): Option<Decoded>
    {
      ParsedResponse(input, schema, decode, unescape)
    }

    /**
     * gorm's Create of a workspace: the BeforeCreate hook resets the current
     * version number to 0, then the row is inserted unless its key is taken.
     */
    method InsertWorkspace(w: Workspace) returns (ok: bool)
      requires Valid() && |w.id| <= minted
      modifies this`workspaces, w`currentPromptVersionNumber
      ensures Valid()
      ensures w.currentPromptVersionNumber == 0
      ensures ok <==> !HasKey(old(workspaces), WorkspaceKey, w.id)
      ensures workspaces == if ok then old(workspaces) + [w.Row()] else old(workspaces)
    {
      w.BeforeCreate();
      ok := !HasKey(workspaces, WorkspaceKey, w.id);
      if ok {
        workspaces := workspaces + [w.Row()];
      }
    }

    /**
     * gorm's Save of a workspace: with the zero key "" it is a Create (hook
     * included, failing when the key is taken); with any other key, an update
     * of the rows with that key, or an insert when there is none.
     */
    method SaveWorkspace(w: Workspace) returns (ok: bool)
      requires Valid() && |w.id| <= minted
      modifies this`workspaces, w`currentPromptVersionNumber
      ensures Valid()
      ensures w.id != "" ==> ok && w.currentPromptVersionNumber == old(w.currentPromptVersionNumber)
      ensures w.id != "" ==> workspaces == Upsert(old(workspaces), WorkspaceKey, w.Row())
      ensures w.id == "" ==> w.currentPromptVersionNumber == 0
      ensures w.id == "" ==> (ok <==> !HasKey(old(workspaces), WorkspaceKey, ""))
      ensures w.id == "" ==> workspaces == if ok then old(workspaces) + [w.Row()] else old(workspaces)
    {
      if w.id == "" {
        ok := InsertWorkspace(w);
      } else {
        ok := true;
        var row := w.Row();
        workspaces := Upsert(workspaces, WorkspaceKey, row);
        assert forall x :: x in workspaces ==> x == row || x in old(workspaces);
      }
    }
  }
}

/**
 * The records of the evaluation service (packages/eval/types.go): variables,
 * prompt versions, workspace configs, test cases, test results, and the
 * `Workspace` struct whose hooks number the prompt versions.
 */
module EvalTypes {
  import opened Wrappers
  import Seqs

  const TWO_32: int := 0x1_0000_0000
  const TWO_31: int := 0x8000_0000

  /** Go's uint32. */
  type u32 = n: int | 0 <= n < TWO_32
  /** Go's int32. */
  type i32 = n: int | -TWO_31 <= n < TWO_31
  /** Go's byte. */
  type byte = n: int | 0 <= n < 256

  /** `n++` on a uint32: one more, except that 2^32 - 1 wraps round to 0. */
  function Next32(n: u32): (r: u32)
    ensures n < TWO_32 - 1 ==> r == n + 1
    ensures n == TWO_32 - 1 ==> r == 0
  {
    (n + 1) % TWO_32
  }

  /** A conversion to int32 (or int32 arithmetic): the value modulo 2^32, read as two's complement. */
  function ToInt32(x: int): (r: i32)
    ensures -TWO_31 <= x < TWO_31 ==> r == x
    ensures (x - r) % TWO_32 == 0
  {
    (x + TWO_31) % TWO_32 - TWO_31
  }

  /** Go's `VariableType` string: the two declared constants, or any other string. */
  datatype VariableType = Text | Image | OtherType(name: string)

  datatype Variable = Variable(name: string, varType: VariableType)

  /**
   * `Variable.Value`, the value stored in the database: SQL NULL for a
   * variable without a name, otherwise its JSON encoding. The encoding itself
   * is not modelled: `Some(v)` stands for the JSON text of `v`.
   */
  function DriverValue(v: Variable): (r: Option<Variable>)
    ensures r.None? <==> v.name == ""
    ensures r.Some? ==> r.value == v
  {
    if v.name == "" then None else Some(v)
  }

  /** `Variable.Scan`: a stored value decodes back to a variable; SQL NULL is not a byte slice and fails. */
  function Scan(d: Option<Variable>): (r: Result<Variable>)
  {
    match d
    case None => Err(Unknown)
    case Some(v) => Ok(v)
  }

  /** What is stored for a variable is read back as that variable, exactly when it has a name. */
  lemma ScanDriverValue(v: Variable)
    ensures Scan(DriverValue(v)).Ok? <==> v.name != ""
    ensures Scan(DriverValue(v)).Ok? ==> Scan(DriverValue(v)).value == v
  {
  }

  /** One variable's value in a test case: an optional text (Go's *string) and image bytes. */
  datatype VariableValue = VariableValue(textValue: Option<string>, imageValue: seq<byte>)

  /** The float32 temperature is kept opaque: no arithmetic is done on it. */
  type Temperature = real

  datatype MessageOptions = MessageOptions(maxTokens: i32, temperature: Temperature)

  datatype Prompt = Prompt(versionNumber: u32, content: string, variables: seq<Variable>, workspaceId: string)

  /** A system prompt version; its type is not part of this model beyond a number and a text. */
  datatype SystemPrompt = SystemPrompt(versionNumber: u32, content: string, workspaceId: string)

  datatype WorkspaceConfig = WorkspaceConfig(
    id: string, workspaceId: string, name: string, modelConfigName: string,
    options: MessageOptions, active: bool)

  datatype TestCase = TestCase(
    id: string, workspaceId: string, values: map<string, VariableValue>, hasBeenEvaluated: bool)

  datatype TestResult = TestResult(
    id: string, testCaseId: string, response: string, promptVersionNumber: u32,
    modelConfigName: string, workspaceConfigId: string, rating: i32, options: MessageOptions)

  /** The columns of the workspaces table; prompts and configs live in their own tables. */
  datatype WorkspaceRow = WorkspaceRow(
    id: string, name: string, currentPromptVersionNumber: u32,
    activeVersionNumbers: seq<u32>, xmlMode: bool)

  /** The test "carries number `v`" over prompt versions. */
  function Numbered(v: u32): Prompt -> bool {
    (p: Prompt) => p.versionNumber == v
  }

  /** The test "carries number `v`" over system-prompt versions. */
  function SystemNumbered(v: u32): SystemPrompt -> bool {
    (p: SystemPrompt) => p.versionNumber == v
  }

  /** The index of the first prompt with number `v`, as the linear search finds it. */
  function FirstPromptIndex(prompts: seq<Prompt>, v: u32): (r: Option<nat>)
    ensures r.Some? ==> r.value < |prompts| && prompts[r.value].versionNumber == v
    ensures r.Some? ==> forall j :: 0 <= j < r.value ==> prompts[j].versionNumber != v
    ensures r.None? ==> forall j :: 0 <= j < |prompts| ==> prompts[j].versionNumber != v
  {
    Seqs.FindFirst(prompts, Numbered(v))
  }

  /** The first prompt with number `v`, or nothing (Go's nil). */
  function PromptWithVersion(prompts: seq<Prompt>, v: u32): Option<Prompt>
  {
    Seqs.First(prompts, Numbered(v))
  }

  /** The first system prompt with number `v`, or nothing. */
  function SystemPromptWithVersion(prompts: seq<SystemPrompt>, v: u32): Option<SystemPrompt>
  {
    Seqs.First(prompts, SystemNumbered(v))
  }

  /**
   * The numbers `k` successive CreatePrompt calls hand out when the current
   * number is `start`.
   */
  function Issued(start: u32, k: nat): seq<u32>
    decreases k
  {
    if k == 0 then [] else [Next32(start)] + Issued(Next32(start), k - 1)
  }

  /**
   * Below the uint32 limit, CreatePrompt hands out start+1, start+2, ...: the
   * numbers strictly increase, so no two versions share a number.
   */
  lemma {:induction false} IssuedIncreasing(start: u32, k: nat)
    requires start + k < TWO_32
    ensures |Issued(start, k)| == k
    ensures forall i :: 0 <= i < k ==> Issued(start, k)[i] == start + i + 1
    decreases k
  {
    if k > 0 {
      IssuedIncreasing(start + 1, k - 1);
    }
  }

  /** After BeforeCreate has reset the counter, the versions are numbered 1, 2, 3, ... */
  lemma IssuedFromZero(k: nat)
    requires k < TWO_32
    ensures |Issued(0, k)| == k
    ensures forall i, j :: 0 <= i < j < k ==> Issued(0, k)[i] < Issued(0, k)[j]
    ensures k > 0 ==> Issued(0, k)[0] == 1
  {
    IssuedIncreasing(0, k);
  }

  /** The Go struct `Workspace`, as a handler holds it in memory. */
  class Workspace {
    var id: string
    var name: string
    var prompts: seq<Prompt>
    var workspaceConfigs: seq<WorkspaceConfig>
    var systemPrompts: seq<SystemPrompt>
    var currentPromptVersionNumber: u32
    var activeVersionNumbers: seq<u32>
    var xmlMode: bool

    /** The struct literal `Workspace{ID: id, Name: name}`: every other field at its zero value. */
    constructor (id: string, name: string)
      ensures Row() == WorkspaceRow(id, name, 0, [], false)
      ensures prompts == [] && workspaceConfigs == [] && systemPrompts == []
    {
      this.id := id;
      this.name := name;
      prompts := [];
      workspaceConfigs := [];
      systemPrompts := [];
      currentPromptVersionNumber := 0;
      activeVersionNumbers := [];
      xmlMode := false;
    }

    /** A struct read from its row, with whatever associations were preloaded. */
    constructor Load(row: WorkspaceRow, prompts: seq<Prompt>, configs: seq<WorkspaceConfig>, systemPrompts: seq<SystemPrompt>)
      ensures Row() == row
      ensures this.prompts == prompts && workspaceConfigs == configs && this.systemPrompts == systemPrompts
    {
      id := row.id;
      name := row.name;
      this.prompts := prompts;
      workspaceConfigs := configs;
      this.systemPrompts := systemPrompts;
      currentPromptVersionNumber := row.currentPromptVersionNumber;
      activeVersionNumbers := row.activeVersionNumbers;
      xmlMode := row.xmlMode;
    }

    /** The columns this struct writes back to the workspaces table. */
    function Row(): WorkspaceRow
      reads this
    {
      WorkspaceRow(id, name, currentPromptVersionNumber, activeVersionNumbers, xmlMode)
    }

    /** The gorm hook run before the first insert: numbering restarts at 0. */
    method BeforeCreate()
      modifies this`currentPromptVersionNumber
      ensures currentPromptVersionNumber == 0
    {
      currentPromptVersionNumber := 0;
    }

    /**
     * Bumps the current number, returns a prompt carrying the new number and
     * marks that number active. Nothing else changes (the frame).
     */
    method CreatePrompt(content: string, variables: seq<Variable>) returns (p: Prompt)
      modifies this`currentPromptVersionNumber, this`activeVersionNumbers
      ensures currentPromptVersionNumber == Next32(old(currentPromptVersionNumber))
      ensures [currentPromptVersionNumber] == Issued(old(currentPromptVersionNumber), 1)
      ensures p == Prompt(currentPromptVersionNumber, content, variables, id)
      ensures activeVersionNumbers == old(activeVersionNumbers) + [currentPromptVersionNumber]
    {
      currentPromptVersionNumber := Next32(currentPromptVersionNumber);
      p := Prompt(currentPromptVersionNumber, content, variables, id);
      activeVersionNumbers := activeVersionNumbers + [currentPromptVersionNumber];
    }

    /** The loaded prompt whose number is the current one, or nothing. */
    method CurrentPrompt() returns (p: Option<Prompt>)
      ensures p.Some? ==> p.value in prompts && p.value.versionNumber == currentPromptVersionNumber
      ensures p.None? <==> forall j :: 0 <= j < |prompts| ==> prompts[j].versionNumber != currentPromptVersionNumber
      ensures p == PromptWithVersion(prompts, currentPromptVersionNumber)
    {
      p := PromptByVersion(currentPromptVersionNumber);
    }

    /** The first loaded prompt numbered `version`, or nothing. */
    method PromptByVersion(version: u32) returns (p: Option<Prompt>)
      ensures p.Some? ==> p.value in prompts && p.value.versionNumber == version
      ensures p.None? <==> forall j :: 0 <= j < |prompts| ==> prompts[j].versionNumber != version
      ensures p == PromptWithVersion(prompts, version)
    {
      var i := 0;
      while i < |prompts|
        invariant 0 <= i <= |prompts|
        invariant forall j :: 0 <= j < i ==> prompts[j].versionNumber != version
      {
        if prompts[i].versionNumber == version {
          p := Some(prompts[i]);
          assert FirstPromptIndex(prompts, version) == Some(i);
          return;
        }
        i := i + 1;
      }
      p := None;
    }

    /** The first loaded system prompt numbered `version`, or nothing. */
    method SystemPromptByVersion(version: u32) returns (p: Option<SystemPrompt>)
      ensures p.None? <==> forall j :: 0 <= j < |systemPrompts| ==> systemPrompts[j].versionNumber != version
      ensures p == SystemPromptWithVersion(systemPrompts, version)
    {
      var i := 0;
      while i < |systemPrompts|
        invariant 0 <= i <= |systemPrompts|
        invariant forall j :: 0 <= j < i ==> systemPrompts[j].versionNumber != version
      {
        if systemPrompts[i].versionNumber == version {
          p := Some(systemPrompts[i]);
          assert Seqs.FindFirst(systemPrompts, SystemNumbered(version)) == Some(i);
          return;
        }
        i := i + 1;
      }
      p := None;
    }
  }
}

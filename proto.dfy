/**
 * The wire messages of the eval.v1 API, as both the Go handlers and the
 * TypeScript client see them.
 */
module Proto {
  import opened Wrappers
  import opened EvalTypes

  datatype ProtoVariableType = TEXT | IMAGE

  datatype ProtoVariable = ProtoVariable(name: string, varType: ProtoVariableType)

  /** The `value` oneof of a VariableValue message; `Unset` when neither case is present. */
  datatype ProtoValue = TextValue(text: string) | ImageValue(image: seq<byte>) | Unset

  /** A prompt version; a variable slot is absent (a nil pointer) when its type was not recognised. */
  datatype PromptMsg = PromptMsg(versionNumber: u32, content: string, variables: seq<Option<ProtoVariable>>)

  datatype ConfigMsg = ConfigMsg(id: string, name: string, modelConfigName: string, options: MessageOptions, active: bool)

  datatype TestCaseMsg = TestCaseMsg(id: string, workspaceId: string, values: map<string, ProtoValue>, hasBeenEvaluated: bool)

  datatype TestResultMsg = TestResultMsg(
    id: string, testCaseId: string, response: string, modelConfigName: string,
    promptVersionNumber: u32, options: MessageOptions, workspaceConfigId: string, rating: i32)

  datatype WorkspaceMsg = WorkspaceMsg(
    id: string, name: string, currentPromptVersionNumber: u32, prompts: seq<PromptMsg>,
    activeVersionNumbers: seq<u32>, configs: seq<ConfigMsg>, xmlMode: bool)
}

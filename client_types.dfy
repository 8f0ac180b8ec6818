/**
 * The messages of the eval.v1 API as the TypeScript client holds them once
 * decoded, and the outcome of a client call. Version numbers stay uint32; the
 * client's `number` is an unbounded integer here.
 */
module ClientTypes {
  import opened EvalTypes
  import opened Proto

  /** A prompt version (`Workspace_Prompt`) with its variables. */
  datatype PromptView = PromptView(versionNumber: u32, content: string, variables: seq<ProtoVariable>)

  /** A system-prompt version (`Workspace_SystemPrompt`). */
  datatype SystemPromptView = SystemPromptView(versionNumber: u32, content: string)

  /** The `workspace` of a GetWorkspace response. */
  datatype WorkspaceView = WorkspaceView(
    id: string, name: string,
    currentPromptVersionNumber: u32, prompts: seq<PromptView>,
    currentSystemPromptVersionNumber: u32, systemPrompts: seq<SystemPromptView>,
    activeVersionNumbers: seq<u32>, configs: seq<ConfigMsg>, xmlMode: bool)

  /** How a client call settles: the promise resolves with a value, or rejects with an error message. */
  datatype Reply<+T> = Resolved(value: T) | Rejected(message: string)
}

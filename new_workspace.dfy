/**
 * The prompt editor of the new-workspace page
 * (frontend/src/pages/NewWorkspace.tsx, `PromptGenerator`): a prompt the
 * model may rewrite, a history of earlier prompts used as an undo stack, and
 * the `pending`/`error` flags of the calls in flight.
 */
module NewWorkspace {
  import opened Wrappers
  import opened ClientTypes

  /** The editor's state: one field per `useState`. */
  datatype Editor = Editor(prompt: string, history: seq<string>, numLines: int, pending: bool, error: Option<string>)

  /** The first render: an empty prompt in four lines, nothing pending. */
  const INITIAL := Editor("", [], 4, false, None)

  /**
   * `handleGeneratePrompt` once its call settles: a non-empty generated prompt
   * pushes the current one and replaces it (and widens the box to 40 lines);
   * an empty one changes nothing; a rejection records its message. `pending`
   * is cleared in every case.
   */
  function Generated(e: Editor, reply: Reply<string>): (r: Editor)
    ensures !r.pending
    ensures reply.Resolved? && reply.value != "" ==> r.prompt == reply.value && r.history == e.history + [e.prompt]
    ensures !(reply.Resolved? && reply.value != "") ==> r.prompt == e.prompt && r.history == e.history
    ensures r.error == if reply.Rejected? then Some(reply.message) else None
  {
    match reply
    case Resolved(generated) =>
      if generated != "" then Editor(generated, e.history + [e.prompt], 40, false, None)
      else e.(pending := false, error := None)
    case Rejected(message) => e.(pending := false, error := Some(message))
  }

  /** `handleUndo`: the last pushed prompt comes back and leaves the history; with no history, nothing happens. */
  function Undone(e: Editor): (r: Editor)
    ensures |e.history| == 0 ==> r == e
    ensures |e.history| > 0 ==> |r.history| == |e.history| - 1 && r.history + [r.prompt] == e.history
    ensures r.numLines == e.numLines && r.pending == e.pending && r.error == e.error
  {
    if |e.history| > 0 then e.(prompt := e.history[|e.history| - 1], history := e.history[..|e.history| - 1])
    else e
  }

  /** The Undo button is enabled exactly when there is something to undo. */
  predicate UndoEnabled(e: Editor) {
    |e.history| != 0
  }

  /** Generate and Accept are enabled exactly when nothing is pending. */
  predicate ActionsEnabled(e: Editor) {
    !e.pending
  }

  /** Undo right after a successful generate gives back the prompt and history from before it. */
  lemma UndoAfterGenerate(e: Editor, generated: string)
    requires generated != ""
    ensures Undone(Generated(e, Resolved(generated))).prompt == e.prompt
    ensures Undone(Generated(e, Resolved(generated))).history == e.history
  {
    var g := Generated(e, Resolved(generated));
    assert g.history == e.history + [e.prompt];
    assert g.history[..|g.history| - 1] == e.history;
  }

  /** A run of generates, each answered by the next reply. */
  function GenerateAll(e: Editor, replies: seq<Reply<string>>): Editor
    decreases |replies|
  {
    if replies == [] then e else GenerateAll(Generated(e, replies[0]), replies[1..])
  }

  /** `n` presses of Undo. */
  function UndoTimes(e: Editor, n: nat): Editor
    decreases n
  {
    if n == 0 then e else UndoTimes(Undone(e), n - 1)
  }

  /** How many of the replies push onto the history. */
  function Pushes(replies: seq<Reply<string>>): nat
    decreases |replies|
  {
    if replies == [] then 0
    else (if replies[0].Resolved? && replies[0].value != "" then 1 else 0) + Pushes(replies[1..])
  }

  /** Every successful generate pushes the prompt it replaced, on top of the history it started from. */
  lemma {:induction false} GenerateAllPushes(e: Editor, replies: seq<Reply<string>>)
    ensures var r := GenerateAll(e, replies);
      |r.history| == |e.history| + Pushes(replies) && r.history[..|e.history|] == e.history
    decreases |replies|
  {
    if replies != [] {
      var g := Generated(e, replies[0]);
      GenerateAllPushes(g, replies[1..]);
      var r := GenerateAll(g, replies[1..]);
      assert r.history[..|e.history|] == r.history[..|g.history|][..|e.history|];
    }
  }

  /**
   * The history is a stack: after any run of generates, pressing Undo once per
   * prompt pushed gives back the prompt and history from before the run.
   */
  lemma {:induction false} UndoAllAfterGenerateAll(e: Editor, replies: seq<Reply<string>>)
    ensures UndoTimes(GenerateAll(e, replies), Pushes(replies)).prompt == e.prompt
    ensures UndoTimes(GenerateAll(e, replies), Pushes(replies)).history == e.history
    decreases |replies|
  {
    if replies != [] {
      var g := Generated(e, replies[0]);
      var rest := replies[1..];
      UndoAllAfterGenerateAll(g, rest);
      var r := GenerateAll(g, rest);
      var k := Pushes(rest);
      if replies[0].Resolved? && replies[0].value != "" {
        UndoTimesSplit(r, k);
        UndoAfterGenerate(e, replies[0].value);
        UndoTimesPrompt(r, k, g);
        assert Undone(g).prompt == e.prompt && Undone(g).history == e.history;
      }
    }
  }

  /** Undoing k + 1 times is undoing k times and then once more. */
  lemma {:induction false} UndoTimesSplit(e: Editor, k: nat)
    ensures UndoTimes(e, k + 1) == Undone(UndoTimes(e, k))
    decreases k
  {
    if k > 0 {
      UndoTimesSplit(Undone(e), k - 1);
    }
  }

  /** Undo depends only on the prompt and the history. */
  lemma UndoTimesPrompt(r: Editor, k: nat, g: Editor)
    requires UndoTimes(r, k).prompt == g.prompt && UndoTimes(r, k).history == g.history
    ensures Undone(UndoTimes(r, k)).prompt == Undone(g).prompt
    ensures Undone(UndoTimes(r, k)).history == Undone(g).history
  {
  }

  /**
   * `handleSavePrompt` once its call settles: the error is cleared and
   * `pending` set before the call, and never cleared again; a rejection
   * records its message.
   */
  function Saved(e: Editor, reply: Reply<Option<string>>): (r: Editor)
    ensures r.pending && r.prompt == e.prompt && r.history == e.history
    ensures r.error == if reply.Rejected? then Some(reply.message) else None
  {
    match reply
    case Resolved(_) => e.(pending := true, error := None)
    case Rejected(message) => e.(pending := true, error := Some(message))
  }

  /** Where a resolved save navigates: `"/workspaces/" + response.workspace?.id`, which reads "undefined" without a workspace. */
  function SavedPath(id: Option<string>): string {
    "/workspaces/" + (if id.Some? then id.value else "undefined")
  }

  /** After a save, whether or not it failed, Generate and Accept stay disabled. */
  lemma SaveDisablesActions(e: Editor, reply: Reply<Option<string>>)
    ensures !ActionsEnabled(Saved(e, reply))
  {
  }

  class PromptGenerator {
    const modelConfigName: Option<string>
    var prompt: string
    var promptHistory: seq<string>
    var numLines: int
    var pending: bool
    var error: Option<string>

    function State(): Editor
      reads this
    {
      Editor(prompt, promptHistory, numLines, pending, error)
    }

    constructor(modelConfigName: Option<string>)
      ensures this.modelConfigName == modelConfigName
      ensures State() == INITIAL
    {
      this.modelConfigName := modelConfigName;
      prompt := "";
      promptHistory := [];
      numLines := 4;
      pending := false;
      error := None;
    }

    /** Typing into the prompt box, which is disabled while a call is pending. */
    method EditPrompt(text: string)
      requires !pending
      modifies this
      ensures State() == old(State()).(prompt := text)
    {
      prompt := text;
    }

    /**
     * `handleGeneratePrompt`: without a model config name (undefined or
     * empty) no request is made and nothing changes.
     */
    method HandleGeneratePrompt(reply: Reply<string>) returns (requested: bool)
      requires !pending
      modifies this
      ensures requested <==> modelConfigName.Some? && modelConfigName.value != ""
      ensures State() == if requested then Generated(old(State()), reply) else old(State())
    {
      if modelConfigName.None? || modelConfigName.value == "" {
        return false;
      }
      requested := true;
      pending := true;
      error := None;
      match reply {
        case Resolved(generated) =>
          if generated != "" {
            promptHistory := promptHistory + [prompt];
            prompt := generated;
            numLines := 40;
          }
        case Rejected(message) =>
          error := Some(message);
      }
      pending := false;
    }

    /** `handleUndo`. */
    method HandleUndo()
      modifies this
      ensures State() == Undone(old(State()))
    {
      if |promptHistory| > 0 {
        var previous := promptHistory[|promptHistory| - 1];
        prompt := previous;
        promptHistory := promptHistory[..|promptHistory| - 1];
      }
    }

    /** `handleSavePrompt`: where the page navigates, if the call resolves. */
    method HandleSavePrompt(reply: Reply<Option<string>>) returns (navigateTo: Option<string>)
      requires !pending
      modifies this
      ensures State() == Saved(old(State()), reply)
      ensures navigateTo == if reply.Resolved? then Some(SavedPath(reply.value)) else None
    {
      error := None;
      pending := true;
      match reply {
        case Resolved(id) =>
          navigateTo := Some(SavedPath(id));
        case Rejected(message) =>
          error := Some(message);
          navigateTo := None;
      }
    }
  }
}

/**
 * The workspace page (frontend/src/pages/WorkspacePage.tsx): it loads one
 * workspace, picks the prompt version and system prompt to show, derives the
 * versions compared side by side, and forwards the version picker's choices
 * to the service.
 */
module WorkspacePage {
  import opened Wrappers
  import opened Seqs
  import opened EvalTypes
  import opened ClientTypes
  import opened VersionSelectDialog
  import Workspaces

  // ---------------------------------------------------------------------------
  // What the loaded workspace shows

  /**
   * `current || count - 1 || 0`. JavaScript's `||` yields its first truthy
   * operand and 0 is the only falsy number here: the stored number unless it
   * is 0, else the last INDEX of the list, else 0. With no versions at all
   * that is -1.
   */
  function Fallback(current: u32, count: nat): (r: int)
    ensures current != 0 ==> r == current
    ensures current == 0 ==> (r == -1 <==> count == 0) && (r == 0 <==> count == 1) && (count > 1 ==> r == count - 1)
  {
    if current != 0 then current
    else if count - 1 != 0 then count - 1
    else 0
  }

  function PromptNumbered(n: int): PromptView -> bool {
    (v: PromptView) => v.versionNumber == n
  }

  function SystemPromptNumbered(n: int): SystemPromptView -> bool {
    (v: SystemPromptView) => v.versionNumber == n
  }

  /** The prompt version shown on load (line 39-40). */
  function CurrentVersion(w: WorkspaceView): Option<PromptView> {
    First(w.prompts, PromptNumbered(Fallback(w.currentPromptVersionNumber, |w.prompts|)))
  }

  /** The system prompt shown on load (line 46-48): the same rule over the system-prompt versions. */
  function CurrentSystemPrompt(w: WorkspaceView): Option<SystemPromptView> {
    First(w.systemPrompts, SystemPromptNumbered(Fallback(w.currentSystemPromptVersionNumber, |w.systemPrompts|)))
  }

  /**
   * The version shown is the first one carrying the fallback number; there is
   * none exactly when no version carries it, in particular when there are no
   * versions.
   */
  lemma CurrentVersionSpec(w: WorkspaceView)
    ensures var n := Fallback(w.currentPromptVersionNumber, |w.prompts|);
      && (CurrentVersion(w).Some? ==> CurrentVersion(w).value in w.prompts && CurrentVersion(w).value.versionNumber == n)
      && (CurrentVersion(w).None? <==> forall i :: 0 <= i < |w.prompts| ==> w.prompts[i].versionNumber != n)
  {
    var n := Fallback(w.currentPromptVersionNumber, |w.prompts|);
    FirstSpec(w.prompts, PromptNumbered(n));
  }

  /** A workspace without system prompts (what GetWorkspace sends) shows none, whatever its number says. */
  lemma NoSystemPromptShown(w: WorkspaceView)
    requires w.systemPrompts == []
    ensures CurrentSystemPrompt(w) == None
  {
  }

  function InActive(numbers: seq<u32>): PromptView -> bool {
    (v: PromptView) => v.versionNumber in numbers
  }

  /** The versions compared side by side: the prompts whose number is active, in the order of the prompts. */
  function ActiveOf(w: WorkspaceView): seq<PromptView> {
    Filter(w.prompts, InActive(w.activeVersionNumbers))
  }

  lemma ActiveOfMembers(w: WorkspaceView)
    ensures forall v :: v in ActiveOf(w) <==> v in w.prompts && v.versionNumber in w.activeVersionNumbers
  {
    FilterMembers(w.prompts, InActive(w.activeVersionNumbers));
  }

  // ---------------------------------------------------------------------------
  // The requests of handleActiveVersions

  /** One SetVersionActive request. */
  datatype Activation = Activation(versionNumber: u32, active: bool)

  /** One request per prompt, in order: active exactly when a selected version has that number. */
  function ActivationRequests(prompts: seq<PromptView>, versions: seq<PromptView>): (r: seq<Activation>)
    ensures |r| == |prompts|
    ensures forall i :: 0 <= i < |prompts| ==>
      r[i].versionNumber == prompts[i].versionNumber && (r[i].active <==> HasNumber(versions, prompts[i].versionNumber))
  {
    seq(|prompts|, i requires 0 <= i < |prompts| =>
      Activation(prompts[i].versionNumber, HasNumber(versions, prompts[i].versionNumber)))
  }

  function Failed(ok: bool): bool { !ok }

  /** How many requests go out: all of them, or up to and including the first that fails (an awaited rejection ends the loop). */
  function Attempted(replies: seq<bool>): (k: nat)
    ensures k <= |replies|
    ensures forall j :: 0 <= j < k - 1 ==> replies[j]
    ensures k < |replies| ==> 0 < k && !replies[k - 1]
    ensures (forall j :: 0 <= j < |replies| ==> replies[j]) ==> k == |replies|
  {
    match FindFirst(replies, Failed)
    case None => |replies|
    case Some(i) => i + 1
  }

  /** The service's active list after each request in turn (SetVersionActive). */
  function Applied(xs: seq<u32>, reqs: seq<Activation>): seq<u32>
    decreases |reqs|
  {
    if reqs == [] then xs
    else
      var last := reqs[|reqs| - 1];
      Workspaces.ActivateVersion(Applied(xs, reqs[..|reqs| - 1]), last.versionNumber, last.active)
  }

  /** Some prompt carries number `n`. */
  predicate Listed(prompts: seq<PromptView>, n: u32) {
    exists i :: 0 <= i < |prompts| && prompts[i].versionNumber == n
  }

  /**
   * Requests that agree on whether `n` is active leave `n` active exactly as
   * they ask when one of them names `n`, and as it was otherwise.
   */
  lemma {:induction false} AppliedMembers(xs: seq<u32>, reqs: seq<Activation>, n: u32, active: bool)
    requires forall i :: 0 <= i < |reqs| && reqs[i].versionNumber == n ==> reqs[i].active == active
    ensures n in Applied(xs, reqs) <==>
      if exists i :: 0 <= i < |reqs| && reqs[i].versionNumber == n then active else n in xs
    decreases |reqs|
  {
    if reqs != [] {
      var k := |reqs| - 1;
      var init := reqs[..k];
      AppliedMembers(xs, init, n, active);
      Workspaces.ActivateVersionMembers(Applied(xs, init), reqs[k].versionNumber, reqs[k].active);
      if exists i :: 0 <= i < |reqs| && reqs[i].versionNumber == n {
        if reqs[k].versionNumber != n {
          var i :| 0 <= i < |reqs| && reqs[i].versionNumber == n;
          assert init[i] == reqs[i];
        }
      }
    }
  }

  /**
   * When every request succeeds, the service's active list holds a prompt's
   * number exactly when a selected version has it, and keeps every number no
   * prompt carries: the page and the service then agree.
   */
  lemma AppliedSelection(xs: seq<u32>, prompts: seq<PromptView>, versions: seq<PromptView>, n: u32)
    ensures n in Applied(xs, ActivationRequests(prompts, versions)) <==>
      if Listed(prompts, n) then HasNumber(versions, n) else n in xs
  {
    var reqs := ActivationRequests(prompts, versions);
    AppliedMembers(xs, reqs, n, HasNumber(versions, n));
  }

  // ---------------------------------------------------------------------------
  // The page's state

  class Page {
    var workspace: Option<WorkspaceView>
    var currentVersion: Option<PromptView>
    var currentSystemPrompt: Option<SystemPromptView>
    var activeVersions: seq<PromptView>
    var xmlMode: bool

    constructor()
      ensures workspace == None && currentVersion == None && currentSystemPrompt == None
      ensures activeVersions == [] && !xmlMode
    {
      workspace := None;
      currentVersion := None;
      currentSystemPrompt := None;
      activeVersions := [];
      xmlMode := false;
    }

    /** The versions the page knows of (`workspace?.workspace?.prompts || []`). */
    function Prompts(): seq<PromptView>
      reads this
    {
      if workspace.Some? then workspace.value.prompts else []
    }

    /**
     * The GetWorkspace effect once the call settles: `reply` is None when it
     * rejects (nothing changes), Some(None) for a response without a workspace.
     */
    method Load(reply: Option<Option<WorkspaceView>>)
      modifies this
      ensures reply.None? ==> workspace == old(workspace)
      ensures reply.Some? ==> workspace == reply.value
      ensures if reply.Some? && reply.value.Some? then
          var w := reply.value.value;
          && currentVersion == CurrentVersion(w) && activeVersions == ActiveOf(w)
          && xmlMode == w.xmlMode && currentSystemPrompt == CurrentSystemPrompt(w)
        else
          && currentVersion == old(currentVersion) && activeVersions == old(activeVersions)
          && xmlMode == old(xmlMode) && currentSystemPrompt == old(currentSystemPrompt)
    {
      if reply.None? {
        return;
      }
      workspace := reply.value;
      if reply.value.None? {
        return;
      }
      var w := reply.value.value;
      currentVersion := CurrentVersion(w);
      activeVersions := ActiveOf(w);
      xmlMode := w.xmlMode;
      currentSystemPrompt := CurrentSystemPrompt(w);
    }

    /** `handleVersionSelect`. */
    method HandleVersionSelect(version: PromptView)
      modifies this
      ensures currentVersion == Some(version)
      ensures workspace == old(workspace) && currentSystemPrompt == old(currentSystemPrompt)
      ensures activeVersions == old(activeVersions) && xmlMode == old(xmlMode)
    {
      currentVersion := Some(version);
    }

    /**
     * `handleActiveVersions`: one SetVersionActive per known prompt, awaited in
     * turn; `replies[i]` says whether the i-th succeeds. A failure ends the
     * handler with the earlier requests applied and the local list untouched;
     * otherwise the local list becomes the selection.
     */
    method HandleActiveVersions(versions: seq<PromptView>, replies: seq<bool>) returns (sent: seq<Activation>)
      requires |replies| == |Prompts()|
      modifies this
      ensures sent == ActivationRequests(old(Prompts()), versions)[..Attempted(replies)]
      ensures activeVersions == if forall j :: 0 <= j < |replies| ==> replies[j] then versions else old(activeVersions)
      ensures workspace == old(workspace) && currentVersion == old(currentVersion)
      ensures currentSystemPrompt == old(currentSystemPrompt) && xmlMode == old(xmlMode)
    {
      var prompts := Prompts();
      ghost var reqs := ActivationRequests(prompts, versions);
      sent := [];
      for i := 0 to |prompts|
        invariant sent == reqs[..i]
        invariant forall j :: 0 <= j < i ==> replies[j]
      {
        sent := sent + [Activation(prompts[i].versionNumber, HasNumber(versions, prompts[i].versionNumber))];
        assert sent == reqs[..i + 1];
        if !replies[i] {
          assert FindFirst(replies, Failed) == Some(i);
          return;
        }
      }
      assert FindFirst(replies, Failed) == None;
      activeVersions := versions;
    }

    /** `handleSetXMLMode`: the local flag follows only once the call resolves (`ok`). */
    method HandleSetXMLMode(mode: bool, ok: bool)
      modifies this
      ensures xmlMode == if ok then mode else old(xmlMode)
      ensures workspace == old(workspace) && currentVersion == old(currentVersion)
      ensures currentSystemPrompt == old(currentSystemPrompt) && activeVersions == old(activeVersions)
    {
      if ok {
        xmlMode := mode;
      }
    }
  }
}

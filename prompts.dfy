/**
 * Prompt handling of the evaluation service (packages/eval/prompts.go):
 * placeholder extraction with `{{(.*?)}}`, the workspace-title and
 * prompt-generation requests to the small model, and UpdateWorkspace, which
 * saves a new prompt version.
 */
module Prompts {
  import opened Wrappers
  import opened Text
  import opened EvalTypes
  import opened Tables
  import opened LlmUtils
  import opened EvalService

  // ---------------------------------------------------------------------------
  // parseDoubleBrackets

  /** "}}" starts at index `j` of `t`. */
  predicate CloseMarkAt(t: string, j: int) {
    0 <= j && j + 2 <= |t| && t[j] == '}' && t[j + 1] == '}'
  }

  /**
   * Where `.*?}}` stops on `t`: the length of the shortest run of characters
   * other than a newline that is followed by "}}", or nothing when a newline
   * or the end comes first.
   */
  function CloseAt(t: string): (r: Option<nat>)
    ensures r.Some? ==> CloseMarkAt(t, r.value)
    ensures r.Some? ==> forall j :: 0 <= j < r.value ==> t[j] != '\n' && !CloseMarkAt(t, j)
    decreases |t|
  {
    if CloseMarkAt(t, 0) then Some(0)
    else if t == [] || t[0] == '\n' then None
    else match CloseAt(t[1..])
      case None => None
      case Some(k) =>
        assert forall j :: 1 <= j <= k ==> (CloseMarkAt(t, j) <==> CloseMarkAt(t[1..], j - 1));
        Some(k + 1)
  }

  /**
   * The submatches of `{{(.*?)}}` in `s`, leftmost first, as
   * FindAllStringSubmatch finds them: after a match the scan resumes at its
   * end, elsewhere one character further on.
   */
  function BracketMatches(s: string): seq<string>
    decreases |s|
  {
    if |s| < 2 then []
    else if s[0] == '{' && s[1] == '{' && CloseAt(s[2..]).Some? then
      var k := CloseAt(s[2..]).value;
      [s[2..2 + k]] + BracketMatches(s[2 + k + 2..])
    else BracketMatches(s[1..])
  }

  /** The placeholder names: each submatch with the surrounding white space trimmed. */
  function Placeholders(s: string): (r: seq<string>)
  {
    var m := BracketMatches(s);
    seq(|m|, i requires 0 <= i < |m| => TrimSpace(m[i]))
  }

  /** `parseDoubleBrackets`: the trimmed submatches, appended in order of appearance. */
  method ParseDoubleBrackets(input: string) returns (result: seq<string>)
    ensures result == Placeholders(input)
  {
    var matches := BracketMatches(input);
    result := [];
    var i := 0;
    while i < |matches|
      invariant 0 <= i <= |matches|
      invariant |result| == i
      invariant forall j :: 0 <= j < i ==> result[j] == TrimSpace(matches[j])
    {
      result := result + [TrimSpace(matches[i])];
      i := i + 1;
    }
  }

  /** Text with no "{{" has no placeholder. */
  lemma {:induction false} NoOpenNoPlaceholders(s: string)
    requires !Contains(s, "{{")
    ensures BracketMatches(s) == []
    ensures Placeholders(s) == []
    decreases |s|
  {
    if |s| >= 2 {
      assert !OccursAt(s, "{{", 0);
      assert s[0..2] == [s[0], s[1]];
      forall j | 0 <= j <= |s| - 1 ensures !OccursAt(s[1..], "{{", j) {
        OccursShift(s, "{{", 1, j + 1);
      }
      NoOpenNoPlaceholders(s[1..]);
    }
  }

  /** A submatch never holds a newline: a placeholder cannot span lines. */
  lemma {:induction false} MatchesOnOneLine(s: string)
    ensures forall m :: m in BracketMatches(s) ==> '\n' !in m
    decreases |s|
  {
    if |s| >= 2 {
      if s[0] == '{' && s[1] == '{' && CloseAt(s[2..]).Some? {
        var k := CloseAt(s[2..]).value;
        MatchesOnOneLine(s[2 + k + 2..]);
        assert forall j :: 0 <= j < k ==> s[2..2 + k][j] == s[2..][j];
      } else {
        MatchesOnOneLine(s[1..]);
      }
    }
  }

  /** A name free of '}' and newlines is followed by its own "}}". */
  lemma {:induction false} CloseAfterName(a: string, rest: string)
    requires '}' !in a && '\n' !in a
    ensures CloseAt(a + "}}" + rest) == Some(|a|)
    decreases |a|
  {
    var t := a + "}}" + rest;
    if a != [] {
      CloseAfterName(a[1..], rest);
      assert t[1..] == a[1..] + "}}" + rest;
      assert t[0] == a[0];
    } else {
      assert CloseMarkAt(t, 0);
    }
  }

  /** A placeholder `{{a}}` at the front yields `a`, and the scan resumes right after it. */
  lemma FirstPlaceholder(a: string, rest: string)
    requires '}' !in a && '\n' !in a
    ensures BracketMatches("{{" + a + "}}" + rest) == [a] + BracketMatches(rest)
  {
    var s := "{{" + a + "}}" + rest;
    assert s[2..] == a + "}}" + rest;
    CloseAfterName(a, rest);
    assert s[0] == '{' && s[1] == '{';
    assert s[2..2 + |a|] == a;
    assert s[2 + |a| + 2..] == rest;
  }

  /** Matching is non-greedy: `{{a}}{{b}}` holds two placeholders, not one spanning both. */
  lemma TwoPlaceholders(a: string, b: string)
    requires '}' !in a && '\n' !in a && '}' !in b && '\n' !in b
    ensures BracketMatches("{{" + a + "}}{{" + b + "}}") == [a, b]
  {
    assert "{{" + a + "}}{{" + b + "}}" == "{{" + a + "}}" + ("{{" + b + "}}" + "");
    FirstPlaceholder(a, "{{" + b + "}}" + "");
    FirstPlaceholder(b, "");
    assert BracketMatches("") == [];
  }

  /** One TEXT variable per name, in order. */
  function TextVariables(names: seq<string>): (r: seq<Variable>)
  {
    seq(|names|, i requires 0 <= i < |names| => Variable(names[i], Text))
  }

  /** The loop declaring a TEXT variable for each extracted name. */
  method DeclareTextVariables(names: seq<string>) returns (variables: seq<Variable>)
    ensures |variables| == |names|
    ensures forall i :: 0 <= i < |names| ==> variables[i].name == names[i] && variables[i].varType == Text
    ensures variables == TextVariables(names)
  {
    variables := [];
    var i := 0;
    while i < |names|
      invariant 0 <= i <= |names|
      invariant variables == TextVariables(names[..i])
    {
      variables := variables + [Variable(names[i], Text)];
      i := i + 1;
    }
    assert names[..i] == names;
  }

  // ---------------------------------------------------------------------------
  // GetNameForWorkspace and GeneratePrompt

  /** The xml tags of summarizePromptOutput's fields. */
  const SUMMARIZE_TAGS: seq<string> := ["reply", "thinking", "title"]
  /** The xml tags of genPromptOutput's fields. */
  const GEN_PROMPT_TAGS: seq<string> := ["reply", "thinking", "prompt"]

  const UNTITLED: string := "Untitled"

  /** A one-message request to `mc` with the given token budget and temperature. */
  function UserRequest(mc: ModelConfig, content: string, maxTokens: int, temperature: Temperature): InferRequest {
    InferRequest(mc, [Message(content, UserRole, false)], maxTokens, temperature)
  }

  /** What GetNameForWorkspace returns: a title, and the error code when it failed. */
  function WorkspaceName(s: Service, input: string): (string, Option<Code>)
    reads s, s.providers
  {
    if s.defaultSmallModelConfig !in s.models then (UNTITLED, Some(NotFound))
    else
      var prompt := ReplacePromptVariables(s.summarizePromptPrompt, map["PROMPT" := input]);
      match s.InferSync(UserRequest(s.models[s.defaultSmallModelConfig], prompt, 256, 0.7))
      case Err(_) => (UNTITLED, Some(Internal))
      case Ok(resp) =>
        match s.Parse(resp, SUMMARIZE_TAGS)
        case None => (UNTITLED, Some(Internal))
        case Some(d) => (FieldValue(d, "title"), None)
  }

  /** GetNameForWorkspace: asks the small model for a title for the prompt text `input`. */
  method GetNameForWorkspace(s: Service, input: string) returns (title: string, err: Option<Code>)
    ensures (title, err) == WorkspaceName(s, input)
  {
    if s.defaultSmallModelConfig !in s.models {
      return UNTITLED, Some(NotFound);
    }
    var prompt := ReplacePromptVariables(s.summarizePromptPrompt, map["PROMPT" := input]);
    var resp := s.InferSync(UserRequest(s.models[s.defaultSmallModelConfig], prompt, 256, 0.7));
    if resp.Err? {
      return UNTITLED, Some(Internal);
    }
    var parsed := ParseResponse(resp.value, SUMMARIZE_TAGS, s.decode, s.unescape);
    if parsed.None? {
      return UNTITLED, Some(Internal);
    }
    return FieldValue(parsed.value, "title"), None;
  }

  /**
   * Every failure comes with the title "Untitled"; NotFound means exactly that
   * the default small model is not registered; a title obtained from the
   * model carries no surrounding white space.
   */
  lemma WorkspaceNameOutcomes(s: Service, input: string)
    ensures WorkspaceName(s, input).1.Some? ==> WorkspaceName(s, input).0 == UNTITLED
    ensures WorkspaceName(s, input).1 == Some(NotFound) <==> s.defaultSmallModelConfig !in s.models
    ensures var t := WorkspaceName(s, input).0; WorkspaceName(s, input).1.None? ==> t == [] || (!IsGoSpace(t[0]) && !IsGoSpace(t[|t| - 1]))
  {
    if s.defaultSmallModelConfig in s.models {
      var prompt := ReplacePromptVariables(s.summarizePromptPrompt, map["PROMPT" := input]);
      var resp := s.InferSync(UserRequest(s.models[s.defaultSmallModelConfig], prompt, 256, 0.7));
      if resp.Ok? && s.Parse(resp.value, SUMMARIZE_TAGS).Some? {
        ParsedFieldTrimmed(resp.value, SUMMARIZE_TAGS, s.decode, s.unescape, "title");
      }
    }
  }

  /** What GeneratePrompt returns for a task description and a model-config name. */
  function GeneratedPrompt(s: Service, modelConfigName: string, task: string): Result<string>
    reads s, s.providers
  {
    if modelConfigName !in s.models then Err(NotFound)
    else
      var prompt := ReplacePromptVariables(s.generatePromptPrompt, map["TASK_DESCRIPTION" := task]);
      match s.InferSync(UserRequest(s.models[modelConfigName], prompt, 1024, 0.3))
      case Err(_) => Err(Internal)
      case Ok(resp) =>
        match s.Parse(resp, GEN_PROMPT_TAGS)
        case None => Err(Internal)
        case Some(d) => Ok(FieldValue(d, "prompt"))
  }

  /** GeneratePrompt: asks the named model to write a prompt for the task. */
  method GeneratePrompt(s: Service, modelConfigName: string, task: string) returns (r: Result<string>)
    ensures r == GeneratedPrompt(s, modelConfigName, task)
  {
    if modelConfigName !in s.models {
      return Err(NotFound);
    }
    var prompt := ReplacePromptVariables(s.generatePromptPrompt, map["TASK_DESCRIPTION" := task]);
    var resp := s.InferSync(UserRequest(s.models[modelConfigName], prompt, 1024, 0.3));
    if resp.Err? {
      return Err(Internal);
    }
    var parsed := ParseResponse(resp.value, GEN_PROMPT_TAGS, s.decode, s.unescape);
    if parsed.None? {
      return Err(Internal);
    }
    return Ok(FieldValue(parsed.value, "prompt"));
  }

  /** GeneratePrompt fails with NotFound exactly for an unregistered model name; a generated prompt is trimmed. */
  lemma GeneratedPromptOutcomes(s: Service, modelConfigName: string, task: string)
    ensures GeneratedPrompt(s, modelConfigName, task) == Err(NotFound) <==> modelConfigName !in s.models
    ensures var r := GeneratedPrompt(s, modelConfigName, task);
      r.Ok? ==> r.value == [] || (!IsGoSpace(r.value[0]) && !IsGoSpace(r.value[|r.value| - 1]))
  {
    if modelConfigName in s.models {
      var prompt := ReplacePromptVariables(s.generatePromptPrompt, map["TASK_DESCRIPTION" := task]);
      var resp := s.InferSync(UserRequest(s.models[modelConfigName], prompt, 1024, 0.3));
      if resp.Ok? && s.Parse(resp.value, GEN_PROMPT_TAGS).Some? {
        ParsedFieldTrimmed(resp.value, GEN_PROMPT_TAGS, s.decode, s.unescape, "prompt");
      }
    }
  }

  // ---------------------------------------------------------------------------
  // UpdateWorkspace

  /** The row of a workspace after UpdateWorkspace: optional new title, next version current and active. */
  function Bumped(row: WorkspaceRow, newTitle: Option<string>): WorkspaceRow {
    var v := Next32(row.currentPromptVersionNumber);
    WorkspaceRow(row.id, if newTitle.Some? then newTitle.value else row.name, v, row.activeVersionNumbers + [v], row.xmlMode)
  }

  /**
   * UpdateWorkspace. The lookup's error is ignored, so an unknown id leaves
   * the zero workspace, whose empty key makes Save an insert: the first Save
   * creates a workspace "" (unless one exists), a version 1 is stored for it,
   * and the second Save fails on the taken key. The raw gorm error reaches
   * the client as Unknown.
   */
  method UpdateWorkspace(s: Service, workspaceId: string, newTitle: Option<string>, newContent: string)
    returns (r: Result<(u32, string)>)
    requires s.Valid()
    modifies s`workspaces, s`prompts
    ensures s.Valid()
    ensures var row := Lookup(old(s.workspaces), WorkspaceKey, workspaceId);
      row.Some? && workspaceId != "" ==>
        var v := Next32(row.value.currentPromptVersionNumber);
        && r == Ok((v, newContent))
        && s.prompts == old(s.prompts) + [Prompt(v, newContent, TextVariables(Placeholders(newContent)), workspaceId)]
        && s.workspaces == Upsert(old(s.workspaces), WorkspaceKey, Bumped(row.value, newTitle))
    ensures var row := Lookup(old(s.workspaces), WorkspaceKey, workspaceId);
      row.None? || workspaceId == "" ==> r == Err(Unknown)
    ensures var row := Lookup(old(s.workspaces), WorkspaceKey, workspaceId);
      (row.None? || workspaceId == "") && HasKey(old(s.workspaces), WorkspaceKey, "") ==>
        s.workspaces == old(s.workspaces) && s.prompts == old(s.prompts)
    ensures var row := Lookup(old(s.workspaces), WorkspaceKey, workspaceId);
      row.None? && !HasKey(old(s.workspaces), WorkspaceKey, "") ==>
        && s.workspaces == old(s.workspaces) + [WorkspaceRow("", if newTitle.Some? then newTitle.value else "", 0, [], false)]
        && s.prompts == old(s.prompts) + [Prompt(1, newContent, TextVariables(Placeholders(newContent)), "")]
  {
    var row := Lookup(s.workspaces, WorkspaceKey, workspaceId);
    var w: Workspace;
    if row.Some? {
      w := new Workspace.Load(row.value, [], [], []);
      assert w.id == row.value.id == workspaceId;
      assert |w.id| <= s.minted by {
        assert row.value in s.workspaces;
      }
    } else {
      w := new Workspace("", "");
    }
    if newTitle.Some? {
      w.name := newTitle.value;
    }
    assert row.Some? ==> w.Row() == row.value.(name := if newTitle.Some? then newTitle.value else row.value.name);
    assert row.None? ==> w.Row() == WorkspaceRow("", if newTitle.Some? then newTitle.value else "", 0, [], false);
    assert row.Some? ==> Bumped(w.Row(), None) == Bumped(row.value, newTitle);
    r := SaveUpdated(s, w, newContent);
  }

  /**
   * The two saves of UpdateWorkspace on the workspace as loaded and renamed:
   * the workspace itself, then the new version and the workspace again.
   */
  method SaveUpdated(s: Service, w: Workspace, newContent: string) returns (r: Result<(u32, string)>)
    requires s.Valid() && |w.id| <= s.minted
    modifies s`workspaces, s`prompts, w`currentPromptVersionNumber, w`activeVersionNumbers
    ensures s.Valid()
    ensures w.id != "" ==>
      var v := Next32(old(w.currentPromptVersionNumber));
      && r == Ok((v, newContent))
      && s.prompts == old(s.prompts) + [Prompt(v, newContent, TextVariables(Placeholders(newContent)), w.id)]
      && s.workspaces == Upsert(old(s.workspaces), WorkspaceKey, Bumped(old(w.Row()), None))
    ensures w.id == "" ==> r == Err(Unknown)
    ensures w.id == "" && HasKey(old(s.workspaces), WorkspaceKey, "") ==>
      s.workspaces == old(s.workspaces) && s.prompts == old(s.prompts)
    ensures w.id == "" && !HasKey(old(s.workspaces), WorkspaceKey, "") ==>
      && s.workspaces == old(s.workspaces) + [old(w.Row()).(currentPromptVersionNumber := 0)]
      && s.prompts == old(s.prompts) + [Prompt(1, newContent, TextVariables(Placeholders(newContent)), "")]
  {
    ghost var before := s.workspaces;
    ghost var first := w.Row();
    var ok := s.SaveWorkspace(w);
    if !ok {
      return Err(Unknown);
    }
    assert w.id != "" ==> w.Row() == first;
    assert w.id == "" ==> HasKey(s.workspaces, WorkspaceKey, "") by {
      if w.id == "" {
        assert s.workspaces[|before|].id == "";
      }
    }
    var newVersion;
    ok, newVersion := SaveNewVersion(s, w, newContent);
    if !ok {
      return Err(Unknown);
    }
    SaveTwice(before, WorkspaceKey, first, w.Row());
    r := Ok((w.currentPromptVersionNumber, newVersion.content));
  }

  /**
   * The second half of UpdateWorkspace: declare the placeholders, create the
   * next version on the loaded workspace, store it, and save the workspace.
   */
  method SaveNewVersion(s: Service, w: Workspace, newContent: string) returns (ok: bool, p: Prompt)
    requires s.Valid() && |w.id| <= s.minted
    modifies s`workspaces, s`prompts, w`currentPromptVersionNumber, w`activeVersionNumbers
    ensures s.Valid()
    ensures p == Prompt(Next32(old(w.currentPromptVersionNumber)), newContent, TextVariables(Placeholders(newContent)), w.id)
    ensures s.prompts == old(s.prompts) + [p]
    ensures w.id != "" ==> w.currentPromptVersionNumber == p.versionNumber
    ensures w.id != "" ==> ok && w.Row() == Bumped(old(w.Row()), None)
    ensures w.id != "" ==> s.workspaces == Upsert(old(s.workspaces), WorkspaceKey, w.Row())
    ensures w.id == "" && HasKey(old(s.workspaces), WorkspaceKey, "") ==> !ok && s.workspaces == old(s.workspaces)
  {
    var names := ParseDoubleBrackets(newContent);
    var variables := DeclareTextVariables(names);
    p := w.CreatePrompt(newContent, variables);
    s.prompts := s.prompts + [p];
    ok := s.SaveWorkspace(w);
  }
}

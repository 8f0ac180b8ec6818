/**
 * The workspace handlers of the evaluation service (packages/eval/workspace.go):
 * creating, reading and listing workspaces, managing their model configs, and
 * choosing which prompt versions are active.
 */
module Workspaces {
  import opened Wrappers
  import opened Seqs
  import opened EvalTypes
  import opened Proto
  import opened Tables
  import opened EvalService
  import opened Prompts

  // ---------------------------------------------------------------------------
  // Variables on the wire

  /** The wire form of one variable: nothing (a nil slot) for a type other than text or image. */
  function ProtoVariableOf(v: Variable): Option<ProtoVariable> {
    match v.varType
    case Text => Some(ProtoVariable(v.name, TEXT))
    case Image => Some(ProtoVariable(v.name, IMAGE))
    case OtherType(_) => None
  }

  /** The variable a wire variable stands for. */
  function VariableOfProto(p: ProtoVariable): Variable {
    Variable(p.name, if p.varType == TEXT then Text else Image)
  }

  /** A text or image variable survives the trip to the wire and back; any other type is dropped. */
  lemma ProtoVariableRoundTrip(v: Variable)
    ensures ProtoVariableOf(v).None? <==> v.varType.OtherType?
    ensures ProtoVariableOf(v).Some? ==> VariableOfProto(ProtoVariableOf(v).value) == v
  {
  }

  /** variablesToProtobuf: one slot per variable, in order, filled only for text and image variables. */
  method VariablesToProtobuf(variables: seq<Variable>) returns (r: seq<Option<ProtoVariable>>)
    ensures |r| == |variables|
    ensures forall i :: 0 <= i < |variables| ==> r[i] == ProtoVariableOf(variables[i])
  {
    var slots := new Option<ProtoVariable>[|variables|](_ => None);
    for i := 0 to |variables|
      invariant forall j :: 0 <= j < i ==> slots[j] == ProtoVariableOf(variables[j])
      invariant forall j :: i <= j < |variables| ==> slots[j] == None
    {
      match variables[i].varType {
        case Text => slots[i] := Some(ProtoVariable(variables[i].name, TEXT));
        case Image => slots[i] := Some(ProtoVariable(variables[i].name, IMAGE));
        case OtherType(_) =>
      }
    }
    r := slots[..];
  }

  /** The wire form of a stored prompt version. */
  function PromptMsgOf(p: Prompt): PromptMsg {
    PromptMsg(p.versionNumber, p.content, seq(|p.variables|, i requires 0 <= i < |p.variables| => ProtoVariableOf(p.variables[i])))
  }

  method PromptToProto(p: Prompt) returns (m: PromptMsg)
    ensures m == PromptMsgOf(p)
  {
    var vars := VariablesToProtobuf(p.variables);
    m := PromptMsg(p.versionNumber, p.content, vars);
  }

  // ---------------------------------------------------------------------------
  // CreateWorkspace

  /** The name a new workspace gets: the one asked for, or else the title the model suggests. */
  function NewWorkspaceName(s: Service, name: string, content: string): Result<string>
    reads s, s.providers
  {
    if name != "" then Ok(name)
    else
      var (title, err) := WorkspaceName(s, content);
      if err.Some? then Err(Internal) else Ok(title)
  }

  /**
   * CreateWorkspace: a fresh workspace named as asked (or by the model) with
   * a first version 1 of `content` whose placeholders are text variables;
   * that version is current and the only active one.
   */
  method CreateWorkspace(s: Service, name: string, content: string) returns (r: Result<WorkspaceMsg>)
    requires s.Valid()
    modifies s`workspaces, s`prompts, s`minted
    ensures s.Valid()
    ensures old(NewWorkspaceName(s, name, content)).Err? ==>
      r == Err(Internal) && s.workspaces == old(s.workspaces) && s.prompts == old(s.prompts)
    ensures old(NewWorkspaceName(s, name, content)).Ok? ==>
      var id := MintedId(old(s.minted));
      var wsName := old(NewWorkspaceName(s, name, content)).value;
      var p := Prompt(1, content, TextVariables(Placeholders(content)), id);
      && !HasKey(old(s.workspaces), WorkspaceKey, id)
      && r == Ok(WorkspaceMsg(id, wsName, 1, [PromptMsgOf(p)], [1], [], false))
      && s.workspaces == old(s.workspaces) + [WorkspaceRow(id, wsName, 1, [1], false)]
      && s.prompts == old(s.prompts) + [p]
  {
    var wsName := name;
    if name == "" {
      var title, err := GetNameForWorkspace(s, content);
      if err.Some? {
        return Err(Internal);
      }
      wsName := title;
    }
    var m := CreateNamedWorkspace(s, wsName, content);
    r := Ok(m);
  }

  /** The part of CreateWorkspace after the name is settled: insert the workspace, then its first version. */
  method CreateNamedWorkspace(s: Service, wsName: string, content: string) returns (m: WorkspaceMsg)
    requires s.Valid()
    modifies s`workspaces, s`prompts, s`minted
    ensures s.Valid()
    ensures var id := MintedId(old(s.minted));
      var p := Prompt(1, content, TextVariables(Placeholders(content)), id);
      && !HasKey(old(s.workspaces), WorkspaceKey, id)
      && m == WorkspaceMsg(id, wsName, 1, [PromptMsgOf(p)], [1], [], false)
      && s.workspaces == old(s.workspaces) + [WorkspaceRow(id, wsName, 1, [1], false)]
      && s.prompts == old(s.prompts) + [p]
  {
    var id := s.NewId();
    ghost var before := s.workspaces;
    var w := new Workspace(id, wsName);
    var names := ParseDoubleBrackets(content);
    var variables := DeclareTextVariables(names);
    var created := s.InsertWorkspace(w);
    assert created;
    ghost var first := w.Row();
    assert first == WorkspaceRow(id, wsName, 0, [], false);
    assert s.workspaces == Upsert(before, WorkspaceKey, first);
    var p := w.CreatePrompt(content, variables);
    ghost var second := w.Row();
    assert second == WorkspaceRow(id, wsName, 1, [1], false);
    s.prompts := s.prompts + [p];
    var saved := s.SaveWorkspace(w);
    assert s.workspaces == Upsert(Upsert(before, WorkspaceKey, first), WorkspaceKey, second);
    SaveTwice(before, WorkspaceKey, first, second);
    assert s.workspaces == before + [second];
    var pm := PromptToProto(p);
    m := WorkspaceMsg(w.id, w.name, p.versionNumber, [pm], [p.versionNumber], [], false);
  }

  // ---------------------------------------------------------------------------
  // GetWorkspace

  /** The test "is a version of workspace `id`". */
  function PromptOf(id: string): Prompt -> bool {
    (p: Prompt) => p.workspaceId == id
  }

  /** The test "is a config of workspace `id`". */
  function ConfigOf(id: string): WorkspaceConfig -> bool {
    (c: WorkspaceConfig) => c.workspaceId == id
  }

  function ConfigMsgOf(c: WorkspaceConfig): ConfigMsg {
    ConfigMsg(c.id, c.name, c.modelConfigName, c.options, c.active)
  }

  /**
   * GetWorkspace: the workspace with its columns, every version stored for it
   * and every config attached to it, in table order; NotFound for an unknown id.
   */
  method GetWorkspace(s: Service, id: string) returns (r: Result<WorkspaceMsg>)
    ensures Lookup(s.workspaces, WorkspaceKey, id).None? <==> r == Err(NotFound)
    ensures r.Ok? ==>
      var row := Lookup(s.workspaces, WorkspaceKey, id).value;
      var ps := Filter(s.prompts, PromptOf(id));
      var cs := Filter(s.configs, ConfigOf(id));
      && r.value.id == id && r.value.name == row.name
      && r.value.currentPromptVersionNumber == row.currentPromptVersionNumber
      && r.value.activeVersionNumbers == row.activeVersionNumbers && r.value.xmlMode == row.xmlMode
      && |r.value.prompts| == |ps| && (forall i :: 0 <= i < |ps| ==> r.value.prompts[i] == PromptMsgOf(ps[i]))
      && |r.value.configs| == |cs| && (forall i :: 0 <= i < |cs| ==> r.value.configs[i] == ConfigMsgOf(cs[i]))
  {
    var row := Lookup(s.workspaces, WorkspaceKey, id);
    if row.None? {
      return Err(NotFound);
    }
    var ps := Filter(s.prompts, PromptOf(id));
    var cs := Filter(s.configs, ConfigOf(id));
    var prompts: seq<PromptMsg> := [];
    for i := 0 to |ps|
      invariant |prompts| == i
      invariant forall j :: 0 <= j < i ==> prompts[j] == PromptMsgOf(ps[j])
    {
      var pm := PromptToProto(ps[i]);
      prompts := prompts + [pm];
    }
    var configs: seq<ConfigMsg> := [];
    for i := 0 to |cs|
      invariant |configs| == i
      invariant forall j :: 0 <= j < i ==> configs[j] == ConfigMsgOf(cs[j])
    {
      configs := configs + [ConfigMsgOf(cs[i])];
    }
    var w := row.value;
    assert w.id == id;
    r := Ok(WorkspaceMsg(w.id, w.name, w.currentPromptVersionNumber, prompts, w.activeVersionNumbers, configs, w.xmlMode));
  }

  // ---------------------------------------------------------------------------
  // ListWorkspaces

  /** `(page - 1) * pageSize` computed in int32, wrapping on overflow. */
  function PageOffset(page: i32, pageSize: i32): i32 {
    ToInt32(ToInt32(page - 1) * pageSize)
  }

  /** Without overflow, the page offset is the plain product. */
  lemma PageOffsetExact(page: i32, pageSize: i32)
    requires 1 <= page && 0 <= pageSize && (page - 1) * pageSize < TWO_31
    ensures PageOffset(page, pageSize) == (page - 1) * pageSize
  {
  }

  /** A listed workspace: only its id and name are filled in. */
  function Summary(w: WorkspaceRow): WorkspaceMsg {
    WorkspaceMsg(w.id, w.name, 0, [], [], [], false)
  }

  /** The rows of page `page` of `pageSize` rows, as the query returns them. */
  function Page<T>(rows: seq<T>, page: i32, pageSize: i32): seq<T> {
    Window(rows, PageOffset(page, pageSize), pageSize)
  }

  /**
   * Pages of a fixed positive size, taken one after another, tile the table
   * as long as the offsets fit in an int32: together two consecutive pages
   * are the double-size window at the first one's offset.
   */
  lemma ConsecutivePages<T>(rows: seq<T>, page: i32, pageSize: i32)
    requires 1 <= page && page + 1 < TWO_31 && 0 <= pageSize && page * pageSize < TWO_31
    ensures Page(rows, page, pageSize) + Page(rows, page + 1, pageSize) == Window(rows, (page - 1) * pageSize, 2 * pageSize)
  {
    PageOffsets(page, pageSize);
    PagesAt(rows, page, pageSize, (page - 1) * pageSize);
  }

  /** The offsets of two consecutive pages, when neither overflows. */
  lemma PageOffsets(page: i32, pageSize: i32)
    requires 1 <= page && page + 1 < TWO_31 && 0 <= pageSize && page * pageSize < TWO_31
    ensures 0 <= (page - 1) * pageSize
    ensures PageOffset(page, pageSize) == (page - 1) * pageSize
    ensures PageOffset(page + 1, pageSize) == (page - 1) * pageSize + pageSize
  {
    var off := (page - 1) * pageSize;
    assert off + pageSize == page * pageSize by {
      assert off == page * pageSize - pageSize;
    }
    assert 0 <= off by {
      assert 0 <= page - 1;
    }
    PageOffsetExact(page, pageSize);
    PageOffsetExact(page + 1, pageSize);
  }

  lemma PagesAt<T>(rows: seq<T>, page: i32, pageSize: i32, off: nat)
    requires page + 1 < TWO_31 && 0 <= pageSize
    requires PageOffset(page, pageSize) == off && PageOffset(page + 1, pageSize) == off + pageSize
    ensures Page(rows, page, pageSize) + Page(rows, page + 1, pageSize) == Window(rows, off, 2 * pageSize)
  {
    WindowsTile(rows, off, pageSize, pageSize);
  }

  /** ListWorkspaces: the requested page of workspace summaries and the (int32) number of workspaces. */
  method ListWorkspaces(s: Service, page: i32, pageSize: i32) returns (items: seq<WorkspaceMsg>, total: i32)
    ensures total == ToInt32(|s.workspaces|)
    ensures var ws := Page(s.workspaces, page, pageSize);
      |items| == |ws| && forall i :: 0 <= i < |ws| ==> items[i] == Summary(ws[i])
  {
    total := ToInt32(|s.workspaces|);
    var ws := Window(s.workspaces, PageOffset(page, pageSize), pageSize);
    items := Summaries(ws);
  }

  /** The loop turning the page's rows into summaries. */
  method Summaries(ws: seq<WorkspaceRow>) returns (items: seq<WorkspaceMsg>)
    ensures |items| == |ws| && forall i :: 0 <= i < |ws| ==> items[i] == Summary(ws[i])
  {
    items := [];
    for i := 0 to |ws|
      invariant |items| == i
      invariant forall j :: 0 <= j < i ==> items[j] == Summary(ws[j])
    {
      items := items + [Summary(ws[i])];
    }
  }

  // ---------------------------------------------------------------------------
  // Workspace configs

  /**
   * CreateWorkspaceConfig: a new active config with a fresh id for an
   * existing workspace. A missing options message is dereferenced anyway
   * after the id is drawn, which crashes the handler.
   */
  method CreateWorkspaceConfig(s: Service, workspaceId: string, name: string, modelConfigName: string,
                               options: Option<MessageOptions>) returns (r: Result<ConfigMsg>)
    requires s.Valid()
    modifies s`configs, s`minted
    ensures s.Valid()
    ensures !HasKey(s.workspaces, WorkspaceKey, workspaceId) ==> r == Err(NotFound) && s.configs == old(s.configs)
    ensures HasKey(s.workspaces, WorkspaceKey, workspaceId) && options.None? ==> r == Err(Crash) && s.configs == old(s.configs)
    ensures HasKey(s.workspaces, WorkspaceKey, workspaceId) && options.Some? ==>
      var id := MintedId(old(s.minted));
      && !HasKey(old(s.configs), ConfigKey, id)
      && r == Ok(ConfigMsg(id, name, modelConfigName, options.value, true))
      && s.configs == old(s.configs) + [WorkspaceConfig(id, workspaceId, name, modelConfigName, options.value, true)]
  {
    var row := Lookup(s.workspaces, WorkspaceKey, workspaceId);
    if row.None? {
      return Err(NotFound);
    }
    var id := s.NewId();
    if options.None? {
      return Err(Crash);
    }
    var wc := WorkspaceConfig(id, row.value.id, name, modelConfigName, options.value, true);
    s.configs := s.configs + [wc];
    r := Ok(ConfigMsg(wc.id, wc.name, wc.modelConfigName, wc.options, true));
  }

  /** DeleteWorkspaceConfig: removes the config with the id; NotFound when there is none. */
  method DeleteWorkspaceConfig(s: Service, configId: string) returns (r: Result<()>)
    requires s.Valid()
    modifies s`configs
    ensures s.Valid()
    ensures r.Err? <==> !HasKey(old(s.configs), ConfigKey, configId)
    ensures r.Err? ==> r.code == NotFound && s.configs == old(s.configs)
    ensures r.Ok? ==> s.configs == Without(old(s.configs), ConfigKey, configId)
  {
    var wc := Lookup(s.configs, ConfigKey, configId);
    if wc.None? {
      return Err(NotFound);
    }
    WithoutMembers(s.configs, ConfigKey, configId);
    s.configs := Without(s.configs, ConfigKey, configId);
    r := Ok(());
  }

  /**
   * SetWorkspaceConfigActive: switches a config of the given workspace on or
   * off. A config of another workspace is refused with InvalidArgument.
   */
  method SetWorkspaceConfigActive(s: Service, workspaceId: string, configId: string, active: bool) returns (r: Result<()>)
    requires s.Valid()
    modifies s`configs
    ensures s.Valid()
    ensures var c := Lookup(old(s.configs), ConfigKey, configId);
      && (c.None? ==> r == Err(NotFound))
      && (c.Some? && c.value.workspaceId != workspaceId ==> r == Err(InvalidArgument))
      && (r.Err? ==> s.configs == old(s.configs))
      && (c.Some? && c.value.workspaceId == workspaceId ==>
            r.Ok? && s.configs == Upsert(old(s.configs), ConfigKey, c.value.(active := active)))
    ensures r.Ok? ==> Lookup(s.configs, ConfigKey, configId).Some? && Lookup(s.configs, ConfigKey, configId).value.active == active
    ensures r.Ok? ==> forall k :: k != configId ==> Lookup(s.configs, ConfigKey, k) == Lookup(old(s.configs), ConfigKey, k)
  {
    var c := Lookup(s.configs, ConfigKey, configId);
    if c.None? {
      return Err(NotFound);
    }
    if c.value.workspaceId != workspaceId {
      return Err(InvalidArgument);
    }
    var updated := c.value.(active := active);
    assert 0 < |updated.id| <= s.minted by {
      assert c.value in s.configs;
    }
    ghost var before := s.configs;
    s.configs := Upsert(s.configs, ConfigKey, updated);
    assert forall x :: x in s.configs ==> x == updated || x in before;
    SaveThenLookup(before, ConfigKey, updated);
    forall k | k != configId
      ensures Lookup(s.configs, ConfigKey, k) == Lookup(before, ConfigKey, k)
    {
      SaveKeepsOthers(before, ConfigKey, updated, k);
    }
    r := Ok(());
  }

  // ---------------------------------------------------------------------------
  // Active versions

  /** The test "is not version `v`". */
  function NotVersion(v: u32): u32 -> bool {
    x => x != v
  }

  /**
   * The active list after SetVersionActive: deactivating removes every
   * occurrence of `v`; activating appends `v` unless it is already there.
   */
  function ActivateVersion(xs: seq<u32>, v: u32, active: bool): seq<u32> {
    if !active then Filter(xs, NotVersion(v))
    else if v in xs then xs else xs + [v]
  }

  /** After SetVersionActive, `v` is active exactly when asked to be, and every other version is as before. */
  lemma ActivateVersionMembers(xs: seq<u32>, v: u32, active: bool)
    ensures v in ActivateVersion(xs, v, active) <==> active
    ensures forall x :: x != v ==> (x in ActivateVersion(xs, v, active) <==> x in xs)
  {
    FilterMembers(xs, NotVersion(v));
  }

  /** A list of distinct active versions stays so. */
  lemma ActivateVersionNoDup(xs: seq<u32>, v: u32, active: bool)
    requires NoDup(xs)
    ensures NoDup(ActivateVersion(xs, v, active))
  {
    if !active {
      FilterNoDup(xs, NotVersion(v));
    }
  }

  /** Asking twice is asking once. */
  lemma ActivateVersionIdempotent(xs: seq<u32>, v: u32, active: bool)
    ensures ActivateVersion(ActivateVersion(xs, v, active), v, active) == ActivateVersion(xs, v, active)
  {
    if !active {
      FilterIdempotent(xs, NotVersion(v));
    }
  }

  /** The loops of SetVersionActive that update the active list. */
  method Activated(xs: seq<u32>, v: u32, active: bool) returns (r: seq<u32>)
    ensures r == ActivateVersion(xs, v, active)
  {
    if !active {
      r := RemoveVersion(xs, v);
    } else {
      var found := ContainsVersion(xs, v);
      r := if found then xs else xs + [v];
    }
  }

  /** The deactivation loop: the versions other than `v`, in their order. */
  method RemoveVersion(xs: seq<u32>, v: u32) returns (r: seq<u32>)
    ensures r == Filter(xs, NotVersion(v))
  {
    r := [];
    for i := 0 to |xs|
      invariant r == Filter(xs[..i], NotVersion(v))
    {
      assert xs[..i + 1] == xs[..i] + [xs[i]];
      FilterAppend(xs[..i], xs[i], NotVersion(v));
      if xs[i] != v {
        r := r + [xs[i]];
      }
    }
    assert xs[..|xs|] == xs;
  }

  /** The activation loop's search. */
  method ContainsVersion(xs: seq<u32>, v: u32) returns (found: bool)
    ensures found <==> v in xs
  {
    found := false;
    for i := 0 to |xs|
      invariant !found <==> v !in xs[..i]
    {
      assert xs[..i + 1] == xs[..i] + [xs[i]];
      if xs[i] == v {
        found := true;
        assert v in xs;
        return;
      }
    }
    assert xs[..|xs|] == xs;
  }

  /**
   * SetVersionActive: the workspace's active list becomes
   * ActivateVersion of the old one. Saving the zero-keyed workspace is an
   * insert of a taken key and fails with Internal.
   */
  method SetVersionActive(s: Service, workspaceId: string, version: u32, active: bool) returns (r: Result<()>)
    requires s.Valid()
    modifies s`workspaces
    ensures s.Valid()
    ensures var row := Lookup(old(s.workspaces), WorkspaceKey, workspaceId);
      && (row.None? ==> r == Err(NotFound) && s.workspaces == old(s.workspaces))
      && (row.Some? && workspaceId == "" ==> r == Err(Internal) && s.workspaces == old(s.workspaces))
      && (row.Some? && workspaceId != "" ==>
            r.Ok? && s.workspaces == Upsert(old(s.workspaces), WorkspaceKey,
              row.value.(activeVersionNumbers := ActivateVersion(row.value.activeVersionNumbers, version, active))))
  {
    var row := Lookup(s.workspaces, WorkspaceKey, workspaceId);
    if row.None? {
      return Err(NotFound);
    }
    assert |row.value.id| <= s.minted by {
      assert row.value in s.workspaces;
    }
    var w := new Workspace.Load(row.value, [], [], []);
    w.activeVersionNumbers := Activated(w.activeVersionNumbers, version, active);
    assert w.Row() == row.value.(activeVersionNumbers := ActivateVersion(row.value.activeVersionNumbers, version, active));
    var ok := s.SaveWorkspace(w);
    if !ok {
      return Err(Internal);
    }
    r := Ok(());
  }

  /** SetXMLMode: sets the workspace's XML-mode flag. */
  method SetXMLMode(s: Service, workspaceId: string, xmlMode: bool) returns (r: Result<()>)
    requires s.Valid()
    modifies s`workspaces
    ensures s.Valid()
    ensures var row := Lookup(old(s.workspaces), WorkspaceKey, workspaceId);
      && (row.None? ==> r == Err(NotFound) && s.workspaces == old(s.workspaces))
      && (row.Some? && workspaceId == "" ==> r == Err(Internal) && s.workspaces == old(s.workspaces))
      && (row.Some? && workspaceId != "" ==>
            r.Ok? && s.workspaces == Upsert(old(s.workspaces), WorkspaceKey, row.value.(xmlMode := xmlMode)))
  {
    var row := Lookup(s.workspaces, WorkspaceKey, workspaceId);
    if row.None? {
      return Err(NotFound);
    }
    assert |row.value.id| <= s.minted by {
      assert row.value in s.workspaces;
    }
    var w := new Workspace.Load(row.value, [], [], []);
    w.xmlMode := xmlMode;
    var ok := s.SaveWorkspace(w);
    if !ok {
      return Err(Internal);
    }
    r := Ok(());
  }
}

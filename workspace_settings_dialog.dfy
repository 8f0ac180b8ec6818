/**
 * The model-config dialog of a workspace
 * (frontend/src/components/WorkspaceSettingsDialog.tsx): the workspace's
 * configs, the ids of the active ones, and the form for a new config. Every
 * change goes to the service first; the local lists change only once the
 * call resolves, and the parent hears of the new list through
 * `onConfigsChange` (the `reported` results below).
 */
module WorkspaceSettingsDialog {
  import opened Wrappers
  import opened Seqs
  import opened EvalTypes
  import opened Proto

  /** The new-config form. */
  datatype ConfigForm = ConfigForm(name: string, modelConfigName: string, options: MessageOptions)

  /** The form as first shown and after each successful add: temperature 0.3, 100 tokens. */
  const DEFAULT_FORM := ConfigForm("", "", MessageOptions(100, 0.3))

  /** The positions of the max-tokens slider: 100 to 3200 in steps of 100. */
  predicate SliderValue(v: int) {
    100 <= v <= 3200 && v % 100 == 0
  }

  /** The form holds values its sliders can show: a max-tokens position and a temperature in 0..2. */
  predicate FormInRange(f: ConfigForm) {
    SliderValue(f.options.maxTokens) && 0.0 <= f.options.temperature <= 2.0
  }

  lemma DefaultFormInRange()
    ensures FormInRange(DEFAULT_FORM)
  {
  }

  function IsActive(c: ConfigMsg): bool { c.active }

  /** The ids of the configs flagged active, in order. */
  function ActiveIds(configs: seq<ConfigMsg>): seq<string> {
    var active := Filter(configs, IsActive);
    seq(|active|, i requires 0 <= i < |active| => active[i].id)
  }

  /** An id is active exactly when some config flagged active carries it. */
  lemma ActiveIdsMembers(configs: seq<ConfigMsg>, id: string)
    ensures id in ActiveIds(configs) <==> exists c :: c in configs && c.active && c.id == id
  {
    var active := Filter(configs, IsActive);
    FilterMembers(configs, IsActive);
    var r := ActiveIds(configs);
    if id in r {
      var i :| 0 <= i < |r| && r[i] == id;
      assert active[i] in active;
    }
    if exists c :: c in configs && c.active && c.id == id {
      var c :| c in configs && c.active && c.id == id;
      assert c in active;
      var i :| 0 <= i < |active| && active[i] == c;
      assert r[i] == id;
    }
  }

  function NotId(id: string): string -> bool {
    (x: string) => x != id
  }

  function NotConfig(id: string): ConfigMsg -> bool {
    (c: ConfigMsg) => c.id != id
  }

  function IdIn(ids: seq<string>): ConfigMsg -> bool {
    (c: ConfigMsg) => c.id in ids
  }

  /** The checkbox toggle of line 93-97: the id removed when present, appended otherwise. */
  function Flip(ids: seq<string>, id: string): seq<string> {
    if id in ids then Filter(ids, NotId(id)) else ids + [id]
  }

  /** Flipping changes the membership of that id and of no other. */
  lemma FlipMembers(ids: seq<string>, id: string)
    ensures forall x :: x in Flip(ids, id) <==> if x == id then id !in ids else x in ids
  {
    FilterMembers(ids, NotId(id));
  }

  /**
   * The list reported after a toggle is filtered by the ids as they were
   * BEFORE the toggle, so for the toggled config it always says the opposite
   * of the new selection.
   */
  lemma ReportedIsStale(configs: seq<ConfigMsg>, ids: seq<string>, c: ConfigMsg)
    requires c in configs
    ensures (c in Filter(configs, IdIn(ids))) != (c.id in Flip(ids, c.id))
  {
    FilterMembers(configs, IdIn(ids));
    FlipMembers(ids, c.id);
  }

  /** Removing a config drops exactly the configs with that id. */
  lemma RemoveMembers(configs: seq<ConfigMsg>, ids: seq<string>, id: string)
    ensures forall c :: c in Filter(configs, NotConfig(id)) <==> c in configs && c.id != id
    ensures forall x :: x in Filter(ids, NotId(id)) <==> x in ids && x != id
  {
    FilterMembers(configs, NotConfig(id));
    FilterMembers(ids, NotId(id));
  }

  class Dialog {
    var localConfigs: seq<ConfigMsg>
    var newConfig: ConfigForm
    var activeConfigs: seq<string>

    /**
     * The first render (line 33-40: the ids of ALL configs) followed by the
     * `configs` effect that runs after it (line 52-55).
     */
    constructor(configs: seq<ConfigMsg>)
      ensures localConfigs == configs && activeConfigs == ActiveIds(configs)
      ensures newConfig == DEFAULT_FORM
    {
      localConfigs := configs;
      newConfig := DEFAULT_FORM;
      activeConfigs := seq(|configs|, i requires 0 <= i < |configs| => configs[i].id);
      new;
      SyncConfigs(configs);
    }

    /** The effect on a new `configs` prop: the list is taken as given, the active ids recomputed. */
    method SyncConfigs(configs: seq<ConfigMsg>)
      modifies this
      ensures localConfigs == configs && activeConfigs == ActiveIds(configs)
      ensures newConfig == old(newConfig)
    {
      localConfigs := configs;
      activeConfigs := ActiveIds(configs);
    }

    /** The max-tokens slider moved to `v`. */
    method SetMaxTokens(v: int)
      requires SliderValue(v)
      modifies this
      ensures newConfig == old(newConfig).(options := old(newConfig).options.(maxTokens := v))
      ensures FormInRange(old(newConfig)) ==> FormInRange(newConfig)
      ensures localConfigs == old(localConfigs) && activeConfigs == old(activeConfigs)
    {
      newConfig := newConfig.(options := newConfig.options.(maxTokens := v));
    }

    /** The temperature slider moved to its `tenths`-th position (0 to 2.0 in steps of 0.1). */
    method SetTemperature(tenths: nat)
      requires tenths <= 20
      modifies this
      ensures newConfig == old(newConfig).(options := old(newConfig).options.(temperature := tenths as real / 10.0))
      ensures FormInRange(old(newConfig)) ==> FormInRange(newConfig)
      ensures localConfigs == old(localConfigs) && activeConfigs == old(activeConfigs)
    {
      newConfig := newConfig.(options := newConfig.options.(temperature := tenths as real / 10.0));
    }

    /**
     * `handleAddConfig`: the form is sent; `reply` is None when the call
     * rejects and Some(None) when the response carries no config (which
     * throws). Either way nothing changes. A created config is appended, its
     * id made active, the new list reported and the form reset.
     */
    method HandleAddConfig(reply: Option<Option<ConfigMsg>>) returns (request: ConfigForm, reported: Option<seq<ConfigMsg>>)
      modifies this
      ensures request == old(newConfig)
      ensures if reply.Some? && reply.value.Some? then
          var c := reply.value.value;
          && localConfigs == old(localConfigs) + [c]
          && activeConfigs == old(activeConfigs) + [c.id]
          && reported == Some(localConfigs)
          && newConfig == DEFAULT_FORM
        else
          && localConfigs == old(localConfigs) && activeConfigs == old(activeConfigs)
          && newConfig == old(newConfig) && reported == None
    {
      request := newConfig;
      reported := None;
      if reply.None? || reply.value.None? {
        return;
      }
      var created := reply.value.value;
      var updated := localConfigs + [created];
      localConfigs := updated;
      activeConfigs := activeConfigs + [created.id];
      reported := Some(updated);
      newConfig := DEFAULT_FORM;
    }

    /**
     * `handleConfigSelection`: the request asks for the config to become
     * active exactly when its id is not active yet; when the call rejects
     * (`ok` false) the handler throws before any change. Otherwise the id's
     * membership flips, and the list reported is filtered by the ids as they
     * were before the flip.
     */
    method HandleConfigSelection(configId: string, ok: bool) returns (requestActive: bool, reported: Option<seq<ConfigMsg>>)
      modifies this
      ensures requestActive <==> configId !in old(activeConfigs)
      ensures activeConfigs == if ok then Flip(old(activeConfigs), configId) else old(activeConfigs)
      ensures reported == if ok then Some(Filter(localConfigs, IdIn(old(activeConfigs)))) else None
      ensures localConfigs == old(localConfigs) && newConfig == old(newConfig)
    {
      requestActive := configId !in activeConfigs;
      reported := None;
      if !ok {
        return;
      }
      var before := activeConfigs;
      activeConfigs := Flip(activeConfigs, configId);
      reported := Some(Filter(localConfigs, IdIn(before)));
    }

    /** `handleRemoveConfig`: once the delete resolves, the config and its id are gone and the remaining list is reported. */
    method HandleRemoveConfig(configId: string, ok: bool) returns (reported: Option<seq<ConfigMsg>>)
      modifies this
      ensures localConfigs == if ok then Filter(old(localConfigs), NotConfig(configId)) else old(localConfigs)
      ensures activeConfigs == if ok then Filter(old(activeConfigs), NotId(configId)) else old(activeConfigs)
      ensures reported == if ok then Some(localConfigs) else None
      ensures newConfig == old(newConfig)
    {
      reported := None;
      if !ok {
        return;
      }
      var updated := Filter(localConfigs, NotConfig(configId));
      localConfigs := updated;
      activeConfigs := Filter(activeConfigs, NotId(configId));
      reported := Some(updated);
    }
  }
}

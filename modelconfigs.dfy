/**
 * The model-config handlers of packages/eval/modelconfigs.go: the configs a
 * client may choose from, and the two default config names.
 */
module ModelConfigs {
  import opened Wrappers
  import opened Providers
  import opened EvalService

  /** evalv1.ModelConfig: provider type, model name and base URL. */
  datatype ModelConfigMsg = ModelConfigMsg(providerType: ProviderType, modelName: string, baseUrl: string)

  function MsgOf(mc: ModelConfig): ModelConfigMsg {
    ModelConfigMsg(mc.providerType, mc.modelName, mc.baseUrl)
  }

  /** A config is offered when a provider of its type is registered and it is a chat model. */
  predicate Offered(mc: ModelConfig, available: set<ProviderType>) {
    mc.providerType in available && mc.modelType == LLM
  }

  /** The providerMap set built from the provider list. */
  method ProviderSet(l: seq<ProviderType>) returns (r: set<ProviderType>)
    ensures forall t :: t in r <==> t in l
  {
    r := {};
    for i := 0 to |l|
      invariant forall t :: t in r <==> t in l[..i]
    {
      assert l[..i + 1] == l[..i] + [l[i]];
      r := r + {l[i]};
    }
    assert l[..|l|] == l;
  }

  /**
   * ListModelConfigs: every registered config whose provider is available
   * and whose type is LLM, under its own name, with provider, model and
   * base URL copied; the others are left out.
   */
  method ListModelConfigs(s: Service) returns (r: map<string, ModelConfigMsg>)
    ensures forall name :: name in r <==>
              name in s.models && s.providers.GetProvider(s.models[name].providerType).Some? && s.models[name].modelType == LLM
    ensures forall name :: name in r ==> r[name] == MsgOf(s.models[name])
  {
    var providers := s.providers.ListProviders();
    var available := ProviderSet(providers);
    r := map[];
    var names := s.models.Keys;
    while names != {}
      invariant names <= s.models.Keys
      invariant forall name :: name in r <==> name in s.models && name !in names && Offered(s.models[name], available)
      invariant forall name :: name in r ==> r[name] == MsgOf(s.models[name])
      decreases names
    {
      var name :| name in names;
      var mc := s.models[name];
      names := names - {name};
      if mc.providerType !in available {
        continue;
      }
      if mc.modelType != LLM {
        continue;
      }
      r := r[name := MsgOf(mc)];
    }
  }

  /** The response of the GetDefault handlers: the registered config and its name. */
  datatype DefaultConfig = DefaultConfig(config: ModelConfigMsg, name: string)

  /**
   * What GetDefault{Small,Large}ModelConfig answer for the stored name:
   * NotFound when no config is registered under it, otherwise that config
   * and the name itself.
   */
  function DefaultNamed(models: map<string, ModelConfig>, name: string): (r: Result<DefaultConfig>)
    ensures r.Err? <==> name !in models
    ensures r.Err? ==> r.code == NotFound
    ensures r.Ok? ==> r.value.name == name && r.value.config == MsgOf(models[name])
  {
    if name in models then Ok(DefaultConfig(MsgOf(models[name]), name)) else Err(NotFound)
  }

  /** SetDefaultSmallModelConfig: overwrites the small default only. */
  method SetDefaultSmallModelConfig(s: Service, name: string)
    modifies s`defaultSmallModelConfig
    ensures s.defaultSmallModelConfig == name
    ensures s.defaultLargeModelConfig == old(s.defaultLargeModelConfig)
  {
    s.defaultSmallModelConfig := name;
  }

  /** SetDefaultLargeModelConfig: overwrites the large default only. */
  method SetDefaultLargeModelConfig(s: Service, name: string)
    modifies s`defaultLargeModelConfig
    ensures s.defaultLargeModelConfig == name
    ensures s.defaultSmallModelConfig == old(s.defaultSmallModelConfig)
  {
    s.defaultLargeModelConfig := name;
  }

  /** GetDefaultSmallModelConfig. */
  method GetDefaultSmallModelConfig(s: Service) returns (r: Result<DefaultConfig>)
    ensures r == DefaultNamed(s.models, s.defaultSmallModelConfig)
  {
    var name := s.defaultSmallModelConfig;
    if name !in s.models {
      return Err(NotFound);
    }
    var mc := s.models[name];
    r := Ok(DefaultConfig(MsgOf(mc), name));
  }

  /** GetDefaultLargeModelConfig. */
  method GetDefaultLargeModelConfig(s: Service) returns (r: Result<DefaultConfig>)
    ensures r == DefaultNamed(s.models, s.defaultLargeModelConfig)
  {
    var name := s.defaultLargeModelConfig;
    if name !in s.models {
      return Err(NotFound);
    }
    var mc := s.models[name];
    r := Ok(DefaultConfig(MsgOf(mc), name));
  }
}

/**
 * The provider registry (packages/providerstore/providerstore.go): a map from
 * a provider type to the client that answers inference requests for it.
 */
module Providers {
  import opened Wrappers
  import opened Seqs

  /** A provider type such as "openai" or "anthropic". */
  type ProviderType = string

  /** An LLM client; only its identity matters to the model. */
  datatype Responder = Responder(name: string)

  class ProviderStore {
    var providers: map<ProviderType, Responder>

    /** A store with no provider registered. */
    constructor ()
      ensures providers == map[]
    {
      providers := map[];
    }

    /** The registered responder, or nothing (Go's nil interface) for an unregistered type. */
    function GetProvider(t: ProviderType): (r: Option<Responder>)
      reads this
      ensures r.Some? <==> t in providers
      ensures r.Some? ==> r.value == providers[t]
    {
      if t in providers then Some(providers[t]) else None
    }

    /** Registers `p` under `t`, replacing any earlier entry for `t`. */
    method AddProvider(t: ProviderType, p: Responder)
      modifies this
      ensures providers == old(providers)[t := p]
      ensures GetProvider(t) == Some(p)
      ensures forall u :: u != t ==> GetProvider(u) == old(GetProvider(u))
    {
      providers := providers[t := p];
    }

    /**
     * The registered types, each exactly once, in the map's iteration order
     * (which Go leaves unspecified: the model picks any remaining key).
     */
    method ListProviders() returns (l: seq<ProviderType>)
      ensures |l| == |providers|
      ensures forall t :: t in l <==> t in providers
      ensures NoDup(l)
    {
      l := [];
      var rest := providers.Keys;
      while rest != {}
        invariant rest <= providers.Keys
        invariant forall t :: t in l <==> t in providers && t !in rest
        invariant NoDup(l)
        invariant |l| + |rest| == |providers|
        decreases |rest|
      {
        var k :| k in rest;
        l := l + [k];
        rest := rest - {k};
      }
    }
  }
}

/** The handlers that perform the routing of module Routing step by step: loops that append
    to lists and fill maps, and writes to the request's profile. */
module RoutingHandler {

  import opened Wrappers
  import opened RoutingStrategies
  import opened Routing
  import O = RoutingOutcomes

  class RequestProfile {
    var supportedBy: seq<string>
    var failClosed: bool
    var modelName: string
    var needs: Option<Needs>
    var decision: Option<Decision>
    var rewrites: Option<map<string, string>>

    function View(): Request
      reads this
    {
      Request(supportedBy, failClosed, modelName, needs, decision, rewrites)
    }

    constructor ()
      ensures View() == FRESH
    {
      supportedBy, failClosed, modelName := [], false, "";
      needs, decision, rewrites := None, None, None;
    }

    method AddSupportedProfile(kind: string)
      modifies this`supportedBy
      ensures View() == old(View()).(supportedBy := Add(old(supportedBy), kind))
    {
      if kind == "" {
        return;
      }
      for i := 0 to |supportedBy|
        invariant kind !in supportedBy[..i]
      {
        if supportedBy[i] == kind {
          return;
        }
      }
      assert supportedBy == supportedBy[..|supportedBy|];
      supportedBy := supportedBy + [kind];
    }

    method IsCompatibleWith(kind: string) returns (ok: bool)
      ensures ok == IsCompatible(supportedBy, kind)
    {
      if kind == AUTO || |supportedBy| == 0 {
        return true;
      }
      for i := 0 to |supportedBy|
        invariant kind !in supportedBy[..i]
        invariant OPENAI_COMPATIBLE in supportedBy[..i] ==> kind !in OPENAI_SPEAKERS
      {
        if supportedBy[i] == kind || (supportedBy[i] == OPENAI_COMPATIBLE && kind in OPENAI_SPEAKERS) {
          return true;
        }
      }
      assert supportedBy == supportedBy[..|supportedBy|];
      ok := false;
    }
  }

  /** The urls of the models' sources. */
  method AddModelsToMap(models: seq<Model>) returns (urls: set<string>)
    ensures urls == Urls(models)
  {
    urls := IntersectModels(models, None);
  }

  /** The urls of the models' sources that are in the existing set, if there is one. */
  method IntersectModels(models: seq<Model>, existing: Option<set<string>>) returns (urls: set<string>)
    ensures urls == if existing.Some? then existing.value * Urls(models) else Urls(models)
  {
    urls := {};
    for i := 0 to |models|
      invariant forall url :: url in urls <==> Hosts(models[..i], url) && (existing.Some? ==> url in existing.value)
    {
      ghost var before := urls;
      var sources := models[i].urls;
      for j := 0 to |sources|
        invariant forall url :: url in urls <==>
                                (url in before || (url in sources[..j] && (existing.Some? ==> url in existing.value)))
      {
        if existing.None? || sources[j] in existing.value {
          urls := urls + {sources[j]};
        }
      }
      assert sources[..|sources|] == sources;
      forall url ensures Hosts(models[..i + 1], url) <==> Hosts(models[..i], url) || url in sources {
      }
    }
    assert models[..|models|] == models;
  }

  /** None when no query finds any model. */
  method FindCapableModels(reg: Registry, required: seq<string>) returns (capable: Option<set<string>>)
    ensures capable == if SupportsCapabilities(reg, required, |required|)
                       then Some(CapableAfter(reg, required, |required|)) else None
  {
    var found := {};
    var supported := false;
    for i := 0 to |required|
      invariant found == CapableAfter(reg, required, i)
      invariant supported == SupportsCapabilities(reg, required, i)
    {
      var answer := reg.withCapability(required[i]);
      if answer.Some? {
        if |answer.value| > 0 {
          assert Answers(reg, required[i]);
          supported := true;
        }
        if i == 0 {
          found := AddModelsToMap(answer.value);
        } else {
          found := IntersectModels(answer.value, Some(found));
        }
      }
    }
    capable := if supported then Some(found) else None;
  }

  /** Those at a capable url, or all if there is none; None means that capabilities are not
      supported, so that nothing is filtered. */
  method FilterEndpointsByCapableModels(endpoints: seq<Endpoint>, capable: Option<set<string>>) returns (r: seq<Endpoint>)
    ensures r == if capable.None? || Keep(endpoints, AtCapable(capable.value)) == [] then endpoints
                 else Keep(endpoints, AtCapable(capable.value))
  {
    if capable.None? {
      return endpoints;
    }
    r := [];
    for i := 0 to |endpoints|
      invariant r == Keep(endpoints[..i], AtCapable(capable.value))
    {
      KeepNext(endpoints, i, AtCapable(capable.value));
      if endpoints[i].url in capable.value {
        r := r + [endpoints[i]];
      }
    }
    assert endpoints[..|endpoints|] == endpoints;
    if |r| == 0 {
      r := endpoints;
    }
  }

  method FilterEndpointsByCapabilities(reg: Registry, needs: Needs, endpoints: seq<Endpoint>) returns (r: seq<Endpoint>)
    ensures r == ByCapabilities(reg, needs, endpoints)
  {
    var required := Required(needs);
    if |required| == 0 {
      return endpoints;
    }
    var capable := FindCapableModels(reg, required);
    if capable.None? || capable.value == {} {
      NoneKept(endpoints, AtCapable({}));
      return endpoints;
    }
    r := FilterEndpointsByCapableModels(endpoints, capable);
  }

  /** Each name in turn claims the urls that are still free. */
  method ResolveEndpoints(reg: Registry, names: seq<string>) returns (mapped: map<string, string>)
    ensures mapped == Resolve(reg, names)
  {
    mapped := map[];
    for i := 0 to |names|
      invariant mapped == Resolve(reg, names[..i])
    {
      assert names[..i + 1][..i] == names[..i];
      var answer := reg.serving(names[i]);
      if answer.None? {
        continue;
      }
      ghost var before := mapped;
      var urls := answer.value;
      for j := 0 to |urls|
        invariant mapped == Claim(before, names[i], urls[..j])
      {
        assert urls[..j + 1][..j] == urls[..j];
        if urls[j] !in mapped {
          mapped := mapped[urls[j] := names[i]];
        }
      }
      assert urls[..|urls|] == urls;
    }
    assert names[..|names|] == names;
  }

  lemma KeepMappedNext(candidates: seq<Endpoint>, i: nat, mapped: map<string, string>)
    requires i < |candidates|
    ensures Keep(candidates[..i + 1], AtMapped(mapped))
         == Keep(candidates[..i], AtMapped(mapped)) + if candidates[i].url in mapped then [candidates[i]] else []
  {
    KeepNext(candidates, i, AtMapped(mapped));
  }

  class Application {
    const config: Config

    constructor (config: Config)
      ensures this.config == config
    {
      this.config := config;
    }

    method RouteByAliasName(reg: Registry, profile: RequestProfile, candidates: seq<Endpoint>) returns (r: seq<Endpoint>)
      modifies profile
      ensures (r, profile.View()) == ByAliasName(reg, old(profile.View()), candidates)
    {
      var reply := reg.route(profile.modelName, candidates);
      if reply.decision.Some? {
        profile.decision := reply.decision;
      }
      if reply.decision.Some? && reply.decision.value.status >= 400 {
        return [];
      }
      if reply.failed || |reply.endpoints| == 0 {
        return candidates;
      }
      r := reply.endpoints;
    }

    method KeepMapped(candidates: seq<Endpoint>, mapped: map<string, string>) returns (r: seq<Endpoint>)
      ensures r == Keep(candidates, AtMapped(mapped))
    {
      r := [];
      for i := 0 to |candidates|
        invariant r == Keep(candidates[..i], AtMapped(mapped))
      {
        KeepMappedNext(candidates, i, mapped);
        if candidates[i].url in mapped {
          r := r + [candidates[i]];
        }
      }
      assert candidates[..|candidates|] == candidates;
    }

    method ResolveAliasEndpoints(reg: Registry, profile: RequestProfile, candidates: seq<Endpoint>) returns (r: seq<Endpoint>)
      requires profile.modelName in config.aliases
      modifies profile
      ensures (r, profile.View()) == ByAlias(reg, config.aliases[old(profile.modelName)], old(profile.View()), candidates)
    {
      var mapped := ResolveEndpoints(reg, config.aliases[profile.modelName]);
      if |mapped| == 0 {
        NoneKept(candidates, AtMapped(mapped));
        r := RouteByAliasName(reg, profile, candidates);
        return;
      }
      r := KeepMapped(candidates, mapped);
      if |r| == 0 {
        r := RouteByAliasName(reg, profile, candidates);
        return;
      }
      profile.rewrites := Some(mapped);
      profile.decision := Some(AliasDecision());
    }

    /** None when the profile fails closed. */
    method FilterByType(profile: RequestProfile, endpoints: seq<Endpoint>) returns (r: Option<seq<Endpoint>>)
      ensures r == ByType(profile.View(), endpoints)
    {
      if |profile.supportedBy| == 0 {
        return Some(endpoints);
      }
      var compatible := [];
      for i := 0 to |endpoints|
        invariant compatible == Keep(endpoints[..i], Compatible(profile.supportedBy))
      {
        KeepNext(endpoints, i, Compatible(profile.supportedBy));
        var ok := profile.IsCompatibleWith(NormaliseType(endpoints[i].kind));
        if ok {
          compatible := compatible + [endpoints[i]];
        }
      }
      assert endpoints[..|endpoints|] == endpoints;
      if |compatible| == 0 {
        return if profile.failClosed then None else Some(endpoints);
      }
      r := Some(compatible);
    }

    method FilterEndpointsByProfile(endpoints: seq<Endpoint>, profile: RequestProfile?) returns (r: seq<Endpoint>)
      modifies profile
      ensures profile == null ==> r == endpoints
      ensures profile != null ==> (r, profile.View()) == ByProfile(config, old(profile.View()), endpoints)
      ensures profile != null && (profile.modelName == "" || config.registry.None?) ==>
                O.AllLeft(config, old(profile.View()), endpoints, r)
    {
      if profile == null {
        return endpoints;
      }
      ghost var req := profile.View();
      if profile.modelName == "" || config.registry.None? {
        O.UnnamedOutcome(config, req, endpoints);
      }
      var typed := FilterByType(profile, endpoints);
      if typed.None? {
        return [];
      }
      r := typed.value;
      if config.registry.Some? {
        var reg := config.registry.value;
        if profile.needs.Some? {
          r := FilterEndpointsByCapabilities(reg, profile.needs.value, r);
        }
        if profile.modelName != "" {
          if profile.modelName in config.aliases {
            r := ResolveAliasEndpoints(reg, profile, r);
            return;
          }
          var reply := reg.route(profile.modelName, r);
          if reply.decision.Some? {
            profile.decision := reply.decision;
          }
          if reply.failed {
            if reply.decision.Some? && reply.decision.value.status > 0 {
              r := [];
            }
            return;
          }
          r := reply.endpoints;
        }
      }
    }

    method FilterEndpointsByContextLength(endpoints: seq<Endpoint>, tokens: int) returns (r: seq<Endpoint>)
      ensures r == ByContext(endpoints, tokens)
    {
      if tokens <= 0 {
        return endpoints;
      }
      r := [];
      for i := 0 to |endpoints|
        invariant r == Keep(endpoints[..i], FitsContext(tokens))
      {
        KeepNext(endpoints, i, FitsContext(tokens));
        if endpoints[i].maxContext == 0 || tokens <= endpoints[i].maxContext {
          r := r + [endpoints[i]];
        }
      }
      assert endpoints[..|endpoints|] == endpoints;
      if |r| == 0 {
        r := endpoints;
      }
    }

    method CreateProviderProfile(provider: string) returns (profile: RequestProfile)
      ensures fresh(profile) && profile.View() == ProviderProfile(config.factory, provider)
    {
      profile := new RequestProfile();
      var p := NormaliseProvider(config.factory, provider);
      if p == OPENAI || p == OPENAI_COMPATIBLE {
        profile.AddSupportedProfile(OPENAI_COMPATIBLE);
        if config.factory.Some? {
          var profiles := config.factory.value.profiles;
          for i := 0 to |profiles|
            invariant profile.View() == FRESH.(supportedBy := AddAll([OPENAI_COMPATIBLE], Advertised(profiles[..i])))
          {
            AdvertisedNext(profiles, i);
            if profiles[i].1 {
              profile.AddSupportedProfile(profiles[i].0);
            }
          }
          assert profiles[..|profiles|] == profiles;
        } else {
          for i := 0 to |STATIC_PROVIDERS|
            invariant profile.View() == FRESH.(supportedBy := AddAll([OPENAI_COMPATIBLE], STATIC_PROVIDERS[..i]))
          {
            assert STATIC_PROVIDERS[..i + 1][..i] == STATIC_PROVIDERS[..i];
            profile.AddSupportedProfile(STATIC_PROVIDERS[i]);
          }
          assert STATIC_PROVIDERS[..|STATIC_PROVIDERS|] == STATIC_PROVIDERS;
        }
      } else {
        profile.AddSupportedProfile(p);
        profile.failClosed := true;
      }
    }

    lemma AdvertisedNext(profiles: seq<(string, bool)>, i: nat)
      requires i < |profiles|
      ensures AddAll([OPENAI_COMPATIBLE], Advertised(profiles[..i + 1]))
              == var before := AddAll([OPENAI_COMPATIBLE], Advertised(profiles[..i]));
                 if profiles[i].1 then Add(before, profiles[i].0) else before
    {
      assert profiles[..i + 1][..i] == profiles[..i];
      var names, name := Advertised(profiles[..i]), profiles[i].0;
      assert profiles[..i + 1][i] == (name, profiles[i].1);
      assert Advertised(profiles[..i + 1]) == if profiles[i].1 then names + [name] else names;
      assert (names + [name])[..|names|] == names;
    }

    /** healthy is None when the healthy endpoints cannot be read; profile is null when the
        request has none. */
    method GetProviderEndpoints(provider: string, healthy: Option<seq<Endpoint>>, profile: RequestProfile?, tokens: int)
      returns (r: Option<seq<Endpoint>>)
      modifies profile
      ensures r.None? <==> healthy.None?
      ensures healthy.None? && profile != null ==> profile.View() == old(profile.View())
      ensures healthy.Some? && profile == null ==> r.value == ProviderEndpoints(config, provider, healthy.value, FRESH, tokens).0
      ensures healthy.Some? && profile != null ==>
                (r.value, profile.View()) == ProviderEndpoints(config, provider, healthy.value, old(profile.View()), tokens)
    {
      if healthy.None? {
        return None;
      }
      var providerProfile := CreateProviderProfile(provider);
      var endpoints := FilterEndpointsByProfile(healthy.value, providerProfile);
      if providerProfile.failClosed && |endpoints| == 0 {
        return Some(endpoints);
      }
      if profile != null && |profile.supportedBy| > 0 {
        endpoints := FilterEndpointsByProfile(endpoints, profile);
      }
      if tokens > 0 {
        endpoints := FilterEndpointsByContextLength(endpoints, tokens);
      }
      r := Some(endpoints);
    }

    method IsSupported(provider: string) returns (ok: bool)
      ensures ok == IsProviderSupported(config.factory, provider)
    {
      var kind := NormaliseType(provider);
      match config.factory {
        case Some(f) =>
          if kind == AUTO {
            return true;
          }
          var name := if kind in f.prefixes then f.prefixes[kind] else kind;
          return name in f.loaded;
        case None =>
          for i := 0 to |STATIC_PROVIDERS|
            invariant kind !in STATIC_PROVIDERS[..i]
          {
            if STATIC_PROVIDERS[i] == kind {
              return true;
            }
          }
          assert STATIC_PROVIDERS[..|STATIC_PROVIDERS|] == STATIC_PROVIDERS;
          return false;
      }
    }

    /** The guard, and then the endpoints; whatever the request asks for, a route of a
        provider other than OpenAI ends at healthy endpoints of that provider. */
    method ProviderProxyHandler(provider: string, healthy: Option<seq<Endpoint>>, profile: RequestProfile?, tokens: int)
      returns (r: Response)
      modifies profile
      ensures r == BadProvider <==> !IsProviderSupported(config.factory, provider)
      ensures r == BadProvider && profile != null ==> profile.View() == old(profile.View())
      ensures r.Candidates? ==>
                && healthy.Some?
                && r.endpoints == ProviderEndpoints(config, provider, healthy.value,
                                                    if profile == null then FRESH else old(profile.View()), tokens).0
      ensures r.Candidates? && RoutesAmong(config) && IsScopedRoute(config, provider) ==>
                forall e :: e in r.endpoints ==> e in healthy.value && InScope(NormaliseProvider(config.factory, provider), e)
    {
      ghost var req := if profile == null then FRESH else profile.View();
      var supported := IsSupported(provider);
      if !supported {
        return BadProvider;
      }
      var endpoints := GetProviderEndpoints(provider, healthy, profile, tokens);
      if endpoints.None? {
        return Unavailable;
      }
      if RoutesAmong(config) && IsScopedRoute(config, provider) {
        ProviderScope(config, provider, healthy.value, req, tokens);
      }
      r := Candidates(endpoints.value);
    }
  }

  datatype Response = BadProvider | Unavailable | Candidates(endpoints: seq<Endpoint>)

}

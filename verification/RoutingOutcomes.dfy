/** What the filter pipeline of module Routing returns, said of each endpoint on its own: its
    type, the capabilities it offers and the models it serves. */
module RoutingOutcomes {

  import opened Wrappers
  import opened RoutingStrategies
  import opened Routing

  // --------------------------------------------------------------------- types

  /** Types are compared without regard to case and with dashes for underscores; of the two
      spellings of LM Studio the one with a dash is used. */
  lemma Normalised(kind: string)
    ensures var r := NormaliseType(kind);
            if |kind| == 8 && Lower(kind) == "lmstudio" then r == "lm-studio"
            else |r| == |kind| && forall i :: 0 <= i < |kind| ==> r[i] == if kind[i] == '_' then '-' else LowerChar(kind[i])
    ensures NormaliseType("LM_Studio") == "lm-studio"
  {
    var lower := Lower(Dashed(kind));
    assert forall i :: 0 <= i < |kind| ==> lower[i] == LowerChar(if kind[i] == '_' then '-' else kind[i]);
    if lower == "lmstudio" {
      forall i | 0 <= i < |kind| ensures LowerChar(kind[i]) == "lmstudio"[i] {
        assert lower[i] == "lmstudio"[i];
      }
      assert Lower(kind) == "lmstudio";
    }
    if |kind| == 8 && Lower(kind) == "lmstudio" {
      forall i | 0 <= i < |kind| ensures lower[i] == "lmstudio"[i] {
        assert LowerChar(kind[i]) == Lower(kind)[i];
      }
      assert lower == "lmstudio";
    }
    assert Lower(Dashed("LM_Studio")) == "lm-studio";
  }

  /** A request that supports one type takes endpoints of that type and those whose type is
      left to be detected; one that supports OpenAI's protocol takes everything that speaks it. */
  lemma CompatibleWithOne(supported: string, kind: string)
    ensures supported != OPENAI_COMPATIBLE ==> (IsCompatible([supported], kind) <==> kind == supported || kind == "auto")
    ensures IsCompatible(["openai-compatible"], kind)
       <==> kind in ["openai-compatible", "auto", "ollama", "lm-studio", "openai", "llamacpp", "vllm", "sglang"]
  {
  }

  // ------------------------------------------------------------- the first stage

  predicate NoneCompatible(req: Request, endpoints: seq<Endpoint>) {
    forall e :: e in endpoints ==> !IsCompatible(req.supportedBy, NormaliseType(e.kind))
  }

  /** The endpoint's type is supported, or no given endpoint's is and the request may fall
      back to all. */
  predicate LeftByType(req: Request, endpoints: seq<Endpoint>, e: Endpoint) {
    && e in endpoints
    && (|| req.supportedBy == []
        || IsCompatible(req.supportedBy, NormaliseType(e.kind))
        || (!req.failClosed && NoneCompatible(req, endpoints)))
  }

  lemma TypeOutcome(req: Request, endpoints: seq<Endpoint>, e: Endpoint)
    ensures ByType(req, endpoints).None? ==> !LeftByType(req, endpoints, e)
    ensures ByType(req, endpoints).Some? ==> (e in ByType(req, endpoints).value <==> LeftByType(req, endpoints, e))
  {
    var compatible := Keep(endpoints, Compatible(req.supportedBy));
    if compatible != [] {
      assert compatible[0] in compatible;
    } else {
      forall o | o in endpoints ensures !IsCompatible(req.supportedBy, NormaliseType(o.kind)) {
        assert o !in compatible;
      }
    }
  }

  // ------------------------------------------------------------ the second stage

  /** What a request asks the registry for. */
  predicate Asks(needs: Needs, capability: string) {
    || (needs.vision && capability == "vision")
    || (needs.functionCalling && (capability == "function_calling" || capability == "tools"))
    || (needs.embeddings && capability == "embeddings")
    || (needs.codeGeneration && capability == "code")
  }

  function FirstAsked(needs: Needs): Option<string> {
    if needs.vision then Some("vision")
    else if needs.functionCalling then Some("function_calling")
    else if needs.embeddings then Some("embeddings")
    else if needs.codeGeneration then Some("code")
    else None
  }

  lemma RequiredIsAsked(needs: Needs)
    ensures forall c :: c in Required(needs) <==> Asks(needs, c)
    ensures FirstAsked(needs) == if Required(needs) == [] then None else Some(Required(needs)[0])
  {
  }

  ghost predicate OffersAll(reg: Registry, needs: Needs, e: Endpoint) {
    forall c :: Asks(needs, c) ==> Offers(reg, c, e.url)
  }

  /** The stage filters: its first query is answered, and some endpoint that the first stage
      left offers everything asked for, as far as the registry answers. */
  ghost predicate Filters(reg: Registry, needs: Needs, req: Request, endpoints: seq<Endpoint>) {
    && FirstAsked(needs).Some? && Answers(reg, FirstAsked(needs).value)
    && exists e :: LeftByType(req, endpoints, e) && OffersAll(reg, needs, e)
  }

  ghost predicate LeftByNeeds(c: Config, req: Request, endpoints: seq<Endpoint>, e: Endpoint) {
    && LeftByType(req, endpoints, e)
    && (c.registry.Some? && req.needs.Some? && Filters(c.registry.value, req.needs.value, req, endpoints) ==>
          OffersAll(c.registry.value, req.needs.value, e))
  }

  lemma OffersRequired(reg: Registry, needs: Needs, e: Endpoint)
    ensures e.url in CapableAfter(reg, Required(needs), |Required(needs)|)
            <==> FirstAsked(needs).Some? && Answers(reg, FirstAsked(needs).value) && OffersAll(reg, needs, e)
  {
    var required := Required(needs);
    RequiredIsAsked(needs);
    CapableIff(reg, required, |required|, e.url);
    if forall i: nat :: i < |required| ==> Offers(reg, required[i], e.url) {
      forall c | Asks(needs, c) ensures Offers(reg, c, e.url) {
        var i :| 0 <= i < |required| && required[i] == c;
      }
    }
    if OffersAll(reg, needs, e) {
      forall i: nat | i < |required| ensures Offers(reg, required[i], e.url) {
        assert required[i] in required;
      }
    }
  }

  /** An endpoint that offers the answered capabilities hosts a model found by a query. */
  lemma SomeModelIsFound(reg: Registry, needs: Needs, e: Endpoint)
    requires FirstAsked(needs).Some? && Answers(reg, FirstAsked(needs).value) && OffersAll(reg, needs, e)
    ensures SupportsCapabilities(reg, Required(needs), |Required(needs)|)
  {
    RequiredIsAsked(needs);
    var first := Required(needs)[0];
    assert Asks(needs, first) && Offers(reg, first, e.url);
    var m :| m in reg.withCapability(first).value && e.url in m.urls;
    assert reg.withCapability(first).value != [];
  }

  lemma NeedsOutcome(reg: Registry, needs: Needs, typed: seq<Endpoint>, e: Endpoint)
    requires e in typed
    ensures e in ByCapabilities(reg, needs, typed)
       <==> (FirstAsked(needs).Some? && Answers(reg, FirstAsked(needs).value) && (exists o :: o in typed && OffersAll(reg, needs, o))
             ==> OffersAll(reg, needs, e))
  {
    var required := Required(needs);
    var kept := Keep(typed, AtCapable(CapableAfter(reg, required, |required|)));
    OffersRequired(reg, needs, e);
    if kept != [] {
      assert kept[0] in kept;
      OffersRequired(reg, needs, kept[0]);
      SomeModelIsFound(reg, needs, kept[0]);
    } else {
      forall o | o in typed
        ensures !(FirstAsked(needs).Some? && Answers(reg, FirstAsked(needs).value) && OffersAll(reg, needs, o))
      {
        OffersRequired(reg, needs, o);
        assert o !in kept;
      }
    }
  }

  lemma NothingElse(reg: Registry, needs: Needs, typed: seq<Endpoint>)
    ensures Among(ByCapabilities(reg, needs, typed), typed)
  {
  }

  // ---------------------------------------------------------------- the pipeline

  /** The candidates that the two first stages leave to the third. */
  function Candidates(c: Config, req: Request, endpoints: seq<Endpoint>): seq<Endpoint> {
    match ByType(req, endpoints)
    case None => []
    case Some(typed) =>
      if c.registry.Some? && req.needs.Some? then ByCapabilities(c.registry.value, req.needs.value, typed) else typed
  }

  lemma CandidatesAreLeft(c: Config, req: Request, endpoints: seq<Endpoint>, e: Endpoint)
    ensures e in Candidates(c, req, endpoints) <==> LeftByNeeds(c, req, endpoints, e)
  {
    TypeOutcome(req, endpoints, e);
    if ByType(req, endpoints).Some? && c.registry.Some? && req.needs.Some? {
      var typed := ByType(req, endpoints).value;
      forall o ensures o in typed <==> LeftByType(req, endpoints, o) {
        TypeOutcome(req, endpoints, o);
      }
      NothingElse(c.registry.value, req.needs.value, typed);
      if e in typed {
        NeedsOutcome(c.registry.value, req.needs.value, typed, e);
      }
    }
  }

  /** Exactly the endpoints that the two first stages leave. */
  ghost predicate AllLeft(c: Config, req: Request, endpoints: seq<Endpoint>, r: seq<Endpoint>) {
    forall e :: e in r <==> LeftByNeeds(c, req, endpoints, e)
  }

  lemma AllCandidates(c: Config, req: Request, endpoints: seq<Endpoint>)
    ensures AllLeft(c, req, endpoints, Candidates(c, req, endpoints))
  {
    forall e ensures e in Candidates(c, req, endpoints) <==> LeftByNeeds(c, req, endpoints, e) {
      CandidatesAreLeft(c, req, endpoints, e);
    }
  }

  /** A request without a model's name gets exactly the endpoints of a supported type that
      offer every capability it asks for, if there is any such endpoint and the first query
      is answered; otherwise all of a supported type. */
  lemma UnnamedOutcome(c: Config, req: Request, endpoints: seq<Endpoint>)
    requires req.modelName == "" || c.registry.None?
    ensures var (r, after) := ByProfile(c, req, endpoints); AllLeft(c, req, endpoints, r) && after == req
  {
    AllCandidates(c, req, endpoints);
  }

  ghost predicate ServedAmong(c: Config, req: Request, endpoints: seq<Endpoint>, urls: seq<string>, r: seq<Endpoint>) {
    forall e :: e in r <==> LeftByNeeds(c, req, endpoints, e) && e.url in urls
  }

  ghost predicate SomeServe(c: Config, req: Request, endpoints: seq<Endpoint>, urls: seq<string>) {
    exists e :: LeftByNeeds(c, req, endpoints, e) && e.url in urls
  }

  /** A request for a model gets exactly those of them that serve it, if any does; the
      decision then says routed, and otherwise that it fell back or was rejected, and a
      rejected request gets nothing. */
  lemma NamedOutcome(s: Strategy, refresh: Refresh, c: Config, req: Request, endpoints: seq<Endpoint>)
    requires c.registry.Some? && req.modelName != "" && req.modelName !in c.aliases
    requires c.registry == Some(WithStrategy(s, c.registry.value.serving, c.registry.value.withCapability, refresh))
    requires ByType(req, endpoints).Some?
    ensures var (r, after) := ByProfile(c, req, endpoints); var urls := Served(c.registry.value, req.modelName);
            && after.decision.Some? && after.rewrites == req.rewrites
            && (after.decision.value.action == "routed" <==> SomeServe(c, req, endpoints, urls))
            && (after.decision.value.action == "routed" ==> ServedAmong(c, req, endpoints, urls, r))
            && (after.decision.value.action == "rejected" ==> r == [])
            && (after.decision.value.action == "fallback" ==>
                  if s.Discovery? && refresh.ok && refresh.healthy.Some? then r == refresh.healthy.value
                  else AllLeft(c, req, endpoints, r))
            && after.decision.value.action in ["routed", "fallback", "rejected"]
  {
    var reg, candidates := c.registry.value, Candidates(c, req, endpoints);
    var urls := Served(reg, req.modelName);
    AllCandidates(c, req, endpoints);
    ActionsDiffer();
    ServedOrFallback(s, reg, refresh, req, candidates, false);
    assert reg.route(req.modelName, candidates) == Choose(s, candidates, urls, refresh);
    RoutedServes(s, candidates, urls, refresh);
    FallsBackIff(s, candidates, urls, refresh);
    ActionsOf(s, candidates, urls, refresh);
    if exists e :: e in candidates && e.url in urls {
      var e :| e in candidates && e.url in urls;
      assert LeftByNeeds(c, req, endpoints, e);
    }
  }

  /** A request under an alias gets exactly those that serve one of its models, if any does,
      and the rewrite map sends each of them to the first of these models that it serves. */
  ghost predicate AliasServed(c: Config, reg: Registry, names: seq<string>, req: Request, endpoints: seq<Endpoint>,
                              r: seq<Endpoint>, after: Request) {
    && (forall e :: e in r <==> LeftByNeeds(c, req, endpoints, e) && ServesSome(reg, names, e))
    && after.rewrites.Some?
    && (forall e :: e in r ==>
          e.url in after.rewrites.value && after.rewrites.value[e.url] == names[Earliest(reg, names, e.url)])
  }

  lemma AliasIsRouted(reg: Registry, names: seq<string>, req: Request, candidates: seq<Endpoint>)
    requires exists e :: e in candidates && ServesSome(reg, names, e)
    ensures ByAlias(reg, names, req, candidates).1.decision == Some(Decision("alias", "routed", "alias resolved", 200))
  {
    var e :| e in candidates && ServesSome(reg, names, e);
    EarliestModelWins(reg, names, e.url);
    assert e in Keep(candidates, AtMapped(Resolve(reg, names)));
  }

  lemma AliasedOutcome(c: Config, req: Request, endpoints: seq<Endpoint>)
    requires c.registry.Some? && req.modelName != "" && req.modelName in c.aliases
    requires exists e :: LeftByNeeds(c, req, endpoints, e) && ServesSome(c.registry.value, c.aliases[req.modelName], e)
    ensures var (r, after) := ByProfile(c, req, endpoints);
            && AliasServed(c, c.registry.value, c.aliases[req.modelName], req, endpoints, r, after)
            && after.decision == Some(Decision("alias", "routed", "alias resolved", 200))
  {
    var reg, names, candidates := c.registry.value, c.aliases[req.modelName], Candidates(c, req, endpoints);
    AllCandidates(c, req, endpoints);
    var e :| LeftByNeeds(c, req, endpoints, e) && ServesSome(reg, names, e);
    assert e in candidates;
    AliasOutcome(reg, names, req, candidates);
    AliasIsRouted(reg, names, req, candidates);
  }

  /** Under an alias none of whose models they serve, the request is routed as for a model of
      that name, and no rewriting is asked for. */
  lemma UnservedAliasOutcome(s: Strategy, refresh: Refresh, c: Config, req: Request, endpoints: seq<Endpoint>)
    requires c.registry.Some? && req.modelName != "" && req.modelName in c.aliases
    requires c.registry == Some(WithStrategy(s, c.registry.value.serving, c.registry.value.withCapability, refresh))
    requires ByType(req, endpoints).Some?
    requires forall e :: LeftByNeeds(c, req, endpoints, e) ==> !ServesSome(c.registry.value, c.aliases[req.modelName], e)
    ensures var (r, after) := ByProfile(c, req, endpoints); var urls := Served(c.registry.value, req.modelName);
            && after.decision.Some? && after.rewrites == req.rewrites
            && (after.decision.value.action == "routed" ==> ServedAmong(c, req, endpoints, urls, r))
            && (after.decision.value.action == "rejected" ==> r == [])
            && (after.decision.value.action == "routed" <==> SomeServe(c, req, endpoints, urls))
  {
    var reg, names, candidates := c.registry.value, c.aliases[req.modelName], Candidates(c, req, endpoints);
    var urls := Served(reg, req.modelName);
    AllCandidates(c, req, endpoints);
    AliasOutcome(reg, names, req, candidates);
    ActionsDiffer();
    ServedOrFallback(s, reg, refresh, req, candidates, true);
    assert reg.route(req.modelName, candidates) == Choose(s, candidates, urls, refresh);
    RoutedServes(s, candidates, urls, refresh);
    ActionsOf(s, candidates, urls, refresh);
    if exists e :: e in candidates && e.url in urls {
      var e :| e in candidates && e.url in urls;
      assert LeftByNeeds(c, req, endpoints, e);
    }
  }

  /** A registry that cannot route at all leaves a request for a model all of them. */
  lemma FailedRouting(c: Config, req: Request, endpoints: seq<Endpoint>)
    requires c.registry.Some? && req.modelName != "" && req.modelName !in c.aliases
    requires forall candidates :: c.registry.value.route(req.modelName, candidates).failed
    requires forall candidates :: c.registry.value.route(req.modelName, candidates).decision == None
    ensures var (r, after) := ByProfile(c, req, endpoints); AllLeft(c, req, endpoints, r) && after == req
  {
    AllCandidates(c, req, endpoints);
  }

  // -------------------------------------------------------------- provider routes

  /** The types that a provider's route is open to. */
  predicate RouteAccepts(factory: Option<Factory>, provider: string, kind: string) {
    if IsOpenAI(NormaliseProvider(factory, provider)) then
      || kind == OPENAI_COMPATIBLE
      || (kind != "" && if factory.Some? then (kind, true) in factory.value.profiles else kind in STATIC_PROVIDERS)
    else kind != "" && kind == NormaliseProvider(factory, provider)
  }

  lemma {:induction false} AllAdded(s: seq<string>, kinds: seq<string>, kind: string)
    ensures kind in AddAll(s, kinds) <==> kind in s || (kind != "" && kind in kinds)
  {
    if kinds != [] {
      AllAdded(s, kinds[..|kinds| - 1], kind);
      assert kinds == kinds[..|kinds| - 1] + [kinds[|kinds| - 1]];
    }
  }

  lemma {:induction false} AdvertisedAre(profiles: seq<(string, bool)>, kind: string)
    ensures kind in Advertised(profiles) <==> (kind, true) in profiles
  {
    if profiles != [] {
      var init, last := profiles[..|profiles| - 1], profiles[|profiles| - 1];
      AdvertisedAre(init, kind);
      assert profiles == init + [last];
      assert (kind, true) in profiles <==> (kind, true) in init || (last.0 == kind && last.1);
    }
  }

  /** Its profile supports these types, closes only if it is not an OpenAI route, and asks for
      nothing else. */
  lemma ProfileAccepts(factory: Option<Factory>, provider: string, kind: string)
    ensures var p := ProviderProfile(factory, provider);
            && (kind in p.supportedBy <==> RouteAccepts(factory, provider, kind))
            && (p.failClosed <==> !IsOpenAI(NormaliseProvider(factory, provider)))
            && p.modelName == "" && p.needs == None
  {
    if factory.Some? {
      AdvertisedAre(factory.value.profiles, kind);
      AllAdded([OPENAI_COMPATIBLE], Advertised(factory.value.profiles), kind);
    } else {
      AllAdded([OPENAI_COMPATIBLE], STATIC_PROVIDERS, kind);
    }
  }

  predicate Fits(e: Endpoint, tokens: int) {
    e.maxContext == 0 || tokens <= e.maxContext
  }

  /** What a request that names types gets of the endpoints the route leaves. */
  ghost predicate Wanted(c: Config, req: Request, scoped: seq<Endpoint>, e: Endpoint) {
    if req.supportedBy == [] then e in scoped else LeftByNeeds(c, req, scoped, e)
  }

  /** A route is two passes and a last stage: of the healthy endpoints that the route's types
      leave, what the request's own profile makes of them, if it names types, and of that the
      endpoints whose context is long enough, if any is.  With none left by a closed route the
      request is not touched. */
  lemma RoutePasses(c: Config, provider: string, healthy: seq<Endpoint>, req: Request, tokens: int)
    returns (scoped: seq<Endpoint>)
    ensures forall e :: e in scoped <==> LeftByType(ProviderProfile(c.factory, provider), healthy, e)
    ensures scoped == [] && !IsOpenAI(NormaliseProvider(c.factory, provider)) ==>
              ProviderEndpoints(c, provider, healthy, req, tokens) == ([], req)
    ensures scoped != [] || IsOpenAI(NormaliseProvider(c.factory, provider)) ==>
              var (own, after) := if req.supportedBy == [] then (scoped, req) else ByProfile(c, req, scoped);
              && ProviderEndpoints(c, provider, healthy, req, tokens).1 == after
              && forall e :: e in ProviderEndpoints(c, provider, healthy, req, tokens).0 <==>
                   e in own && (tokens > 0 && (exists o :: o in own && Fits(o, tokens)) ==> Fits(e, tokens))
  {
    var profile := ProviderProfile(c.factory, provider);
    ProfileAccepts(c.factory, provider, "");
    scoped := ByProfile(c, profile, healthy).0;
    UnnamedOutcome(c, profile, healthy);
    forall e ensures e in scoped <==> LeftByType(profile, healthy, e) {
      assert LeftByNeeds(c, profile, healthy, e) <==> LeftByType(profile, healthy, e);
    }
    if tokens > 0 {
      ContextOutcome(if req.supportedBy == [] then scoped else ByProfile(c, req, scoped).0, tokens);
    }
  }

  /** So a request without a model's name gets, of these, those that its own types and needs
      leave, and of them the ones whose context is long enough, if any is. */
  lemma RouteOutcome(c: Config, provider: string, healthy: seq<Endpoint>, req: Request, tokens: int)
    returns (scoped: seq<Endpoint>)
    requires req.modelName == ""
    ensures forall e :: e in scoped <==> LeftByType(ProviderProfile(c.factory, provider), healthy, e)
    ensures var (r, after) := ProviderEndpoints(c, provider, healthy, req, tokens);
            && after == req
            && forall e :: e in r <==>
                 && Wanted(c, req, scoped, e)
                 && (tokens > 0 && (exists o :: Wanted(c, req, scoped, o) && Fits(o, tokens)) ==> Fits(e, tokens))
  {
    scoped := RoutePasses(c, provider, healthy, req, tokens);
    UnnamedOutcome(c, req, scoped);
    var own := if req.supportedBy == [] then scoped else ByProfile(c, req, scoped).0;
    assert forall e :: e in own <==> Wanted(c, req, scoped, e);
  }

  lemma ContextOutcome(endpoints: seq<Endpoint>, tokens: int)
    requires tokens > 0
    ensures forall e :: e in ByContext(endpoints, tokens) <==>
                        e in endpoints && ((exists o :: o in endpoints && Fits(o, tokens)) ==> Fits(e, tokens))
  {
    var kept := Keep(endpoints, FitsContext(tokens));
    if kept != [] {
      assert kept[0] in kept;
    } else {
      forall o | o in endpoints ensures !Fits(o, tokens) {
        assert o !in kept;
      }
    }
  }

  // --------------------------------------------------------------------- order

  /** Filtering keeps the order: what is kept of two lists is kept of each. */
  lemma {:induction false} KeepConcat(a: seq<Endpoint>, b: seq<Endpoint>, keep: Endpoint -> bool)
    ensures Keep(a + b, keep) == Keep(a, keep) + Keep(b, keep)
    ensures |a| == 1 ==> Keep(a, keep) == if keep(a[0]) then a else []
  {
    if |a| == 1 {
      assert a[..0] == [];
    }
    if b == [] {
      assert a + b == a;
    } else {
      var init, last := b[..|b| - 1], b[|b| - 1];
      KeepConcat(a, init, keep);
      assert (a + b)[..|a + b| - 1] == a + init;
    }
  }
}

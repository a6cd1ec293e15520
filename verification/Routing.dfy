/** Choosing the endpoints a request may be sent to: the filter pipeline (compatibility,
    capabilities, model), model aliases, and the provider-scoped routes built on it. */
module Routing {

  import opened Wrappers
  import opened RoutingStrategies

  // ------------------------------------------------------------------- values

  datatype Needs = Needs(vision: bool, functionCalling: bool, embeddings: bool, codeGeneration: bool)

  /** What the pipeline reads and writes of a request's profile; rewrites is the map from
      endpoint to model name that the proxy uses to rewrite the body. */
  datatype Request = Request(
    supportedBy: seq<string>,
    failClosed: bool,
    modelName: string,
    needs: Option<Needs>,
    decision: Option<Decision>,
    rewrites: Option<map<string, string>>)

  const FRESH := Request([], false, "", None, None, None)

  /** A model with the urls of its sources. */
  datatype Model = Model(id: string, urls: seq<string>)

  /** The model registry: who serves a model, which models have a capability (None is an
      error), and its routing. */
  datatype Registry = Registry(
    serving: string -> Option<seq<string>>,
    withCapability: string -> Option<seq<Model>>,
    route: (string, seq<Endpoint>) -> Reply)

  /** The profile factory: its table of provider spellings, the names of the profiles it has
      loaded, and those it lists with whether they advertise compatibility with OpenAI. */
  datatype Factory = Factory(prefixes: map<string, string>, loaded: set<string>, profiles: seq<(string, bool)>)

  datatype Config = Config(registry: Option<Registry>, aliases: map<string, seq<string>>, factory: Option<Factory>)

  type Result = (seq<Endpoint>, Request)

  const AUTO := "auto"
  const OPENAI := "openai"
  const OPENAI_COMPATIBLE := "openai-compatible"
  const OPENAI_SPEAKERS := ["ollama", "lm-studio", OPENAI, "llamacpp", "vllm", "sglang"]
  const STATIC_PROVIDERS :=
    ["lemonade", "ollama", "lm-studio", OPENAI, "lmdeploy", "sglang", "vllm", "omlx", "docker-model-runner"]

  // ------------------------------------------------------------ compatibility

  function Dashed(s: string): (r: string)
    ensures |r| == |s|
  {
    seq(|s|, i requires 0 <= i < |s| => if s[i] == '_' then '-' else s[i])
  }

  function NormaliseType(kind: string): string {
    var lower := Lower(Dashed(kind));
    if lower == "lmstudio" then "lm-studio" else lower
  }

  predicate IsCompatible(supportedBy: seq<string>, kind: string) {
    || kind == AUTO
    || supportedBy == []
    || kind in supportedBy
    || (OPENAI_COMPATIBLE in supportedBy && kind in OPENAI_SPEAKERS)
  }

  function Compatible(supportedBy: seq<string>): Endpoint -> bool {
    (e: Endpoint) => IsCompatible(supportedBy, NormaliseType(e.kind))
  }

  /** Stage 1; None when the profile fails closed. */
  function ByType(req: Request, endpoints: seq<Endpoint>): Option<seq<Endpoint>> {
    var compatible := Keep(endpoints, Compatible(req.supportedBy));
    if req.supportedBy == [] then Some(endpoints)
    else if compatible != [] then Some(compatible)
    else if req.failClosed then None
    else Some(endpoints)
  }

  // ------------------------------------------------------------- capabilities

  function Required(needs: Needs): seq<string> {
    (if needs.vision then ["vision"] else [])
    + (if needs.functionCalling then ["function_calling", "tools"] else [])
    + (if needs.embeddings then ["embeddings"] else [])
    + (if needs.codeGeneration then ["code"] else [])
  }

  predicate Hosts(models: seq<Model>, url: string) {
    exists m :: m in models && url in m.urls
  }

  function Urls(models: seq<Model>): (r: set<string>)
    ensures forall url :: url in r <==> Hosts(models, url)
  {
    set m, url | m in models && url in m.urls :: url
  }

  /** The urls left after the first n queries: a failed query is skipped, the first one
      fills the set and each later one intersects it. */
  function CapableAfter(reg: Registry, required: seq<string>, n: nat): set<string>
    requires n <= |required|
  {
    if n == 0 then {}
    else
      match reg.withCapability(required[n - 1])
      case None => CapableAfter(reg, required, n - 1)
      case Some(models) => if n == 1 then Urls(models) else CapableAfter(reg, required, n - 1) * Urls(models)
  }

  predicate Answers(reg: Registry, capability: string) {
    reg.withCapability(capability).Some?
  }

  /** Some query finds a model at all. */
  predicate SupportsCapabilities(reg: Registry, required: seq<string>, n: nat)
    requires n <= |required|
  {
    exists i: nat :: i < n && Answers(reg, required[i]) && reg.withCapability(required[i]).value != []
  }

  function AtCapable(urls: set<string>): Endpoint -> bool {
    (e: Endpoint) => e.url in urls
  }

  function ByCapabilities(reg: Registry, needs: Needs, endpoints: seq<Endpoint>): seq<Endpoint> {
    var required := Required(needs);
    var capable := CapableAfter(reg, required, |required|);
    var kept := Keep(endpoints, AtCapable(capable));
    if kept == [] || !SupportsCapabilities(reg, required, |required|) then endpoints else kept
  }

  /** The url hosts a model for the capability, as far as the registry answers. */
  predicate Offers(reg: Registry, capability: string, url: string) {
    Answers(reg, capability) ==> Hosts(reg.withCapability(capability).value, url)
  }

  /** An endpoint is capable exactly when the first query was answered and, for every
      answered query, it hosts some model with that capability. */
  lemma {:induction false} CapableIff(reg: Registry, required: seq<string>, n: nat, url: string)
    requires n <= |required|
    ensures url in CapableAfter(reg, required, n)
            <==> n > 0 && Answers(reg, required[0]) && forall i: nat :: i < n ==> Offers(reg, required[i], url)
  {
    if n > 0 {
      CapableIff(reg, required, n - 1, url);
      assert Offers(reg, required[n - 1], url)
        <==> (Answers(reg, required[n - 1]) ==> url in Urls(reg.withCapability(required[n - 1]).value));
    }
  }

  /** What the filter promises: it never empties the list, and when it drops anything every
      endpoint it keeps offers every required capability whose query was answered. */
  lemma CapabilitiesAreOffered(reg: Registry, needs: Needs, endpoints: seq<Endpoint>, e: Endpoint, i: nat)
    requires i < |Required(needs)| && e in ByCapabilities(reg, needs, endpoints)
    requires ByCapabilities(reg, needs, endpoints) != endpoints
    ensures e in endpoints && Offers(reg, Required(needs)[i], e.url)
  {
    var required := Required(needs);
    CapableIff(reg, required, |required|, e.url);
  }

  /** The url hosts a single model that every answered query returned. */
  ghost predicate OneModelFits(reg: Registry, required: seq<string>, url: string) {
    exists m :: IsFitting(reg, required, url, m)
  }

  predicate IsFitting(reg: Registry, required: seq<string>, url: string, m: Model) {
    && url in m.urls
    && forall i :: 0 <= i < |required| && Answers(reg, required[i]) ==> m in reg.withCapability(required[i]).value
  }

  /** Whenever the filter drops anything, each endpoint it keeps has one model with all the
      capabilities. */
  ghost predicate FindsOneModel(needs: Needs) {
    forall reg, endpoints, e ::
      e in ByCapabilities(reg, needs, endpoints) && ByCapabilities(reg, needs, endpoints) != endpoints
      ==> OneModelFits(reg, Required(needs), e.url)
  }

  /** The filter intersects endpoints, so it is one model that has all the capabilities, for
      every registry and every list of endpoints, if and only if at most one is required. */
  lemma OneModelIff(needs: Needs)
    ensures FindsOneModel(needs) <==> |Required(needs)| <= 1
  {
    if |Required(needs)| <= 1 {
      forall reg, endpoints, e |
        e in ByCapabilities(reg, needs, endpoints) && ByCapabilities(reg, needs, endpoints) != endpoints
        ensures OneModelFits(reg, Required(needs), e.url)
      {
        OnlyCapability(reg, needs, endpoints, e);
      }
    } else {
      CapabilitiesOfDifferentModels(needs);
    }
  }

  lemma OnlyCapability(reg: Registry, needs: Needs, endpoints: seq<Endpoint>, e: Endpoint)
    requires |Required(needs)| <= 1
    requires e in ByCapabilities(reg, needs, endpoints) && ByCapabilities(reg, needs, endpoints) != endpoints
    ensures OneModelFits(reg, Required(needs), e.url)
  {
    var required := Required(needs);
    CapableIff(reg, required, |required|, e.url);
    assert Offers(reg, required[0], e.url);
    var m :| m in reg.withCapability(required[0]).value && e.url in m.urls;
    assert IsFitting(reg, required, e.url, m);
  }

  const ONE := Model("one", ["a"])
  const ANOTHER := Model("another", ["a"])

  /** Two models at the same endpoint: one has the first capability, another all others. */
  function SplitBetween(first: string): Registry {
    Registry((_: string) => None, (c: string) => Some(if c == first then [ONE] else [ANOTHER]),
             (_: string, _: seq<Endpoint>) => Reply([], None, true))
  }

  /** For any request that needs more than one capability the filter keeps, of two
      endpoints, just the one where different models have them. */
  lemma CapabilitiesOfDifferentModels(needs: Needs)
    requires |Required(needs)| > 1
    ensures var reg := SplitBetween(Required(needs)[0]); var a, b := Endpoint("a", "ollama", 0), Endpoint("b", "ollama", 0);
            && ByCapabilities(reg, needs, [b, a]) == [a]
            && !OneModelFits(reg, Required(needs), a.url)
    ensures !FindsOneModel(needs)
  {
    var required := Required(needs);
    var reg := SplitBetween(required[0]);
    var a, b := Endpoint("a", "ollama", 0), Endpoint("b", "ollama", 0);
    SplitKeepsA(required);
    KeepPair(b, a, AtCapable(CapableAfter(reg, required, |required|)));
    FirstTwoDiffer(needs);
    NoneFits(required);
    assert a in ByCapabilities(reg, needs, [b, a]) && ByCapabilities(reg, needs, [b, a]) != [b, a];
  }

  lemma FirstTwoDiffer(needs: Needs)
    requires |Required(needs)| > 1
    ensures Required(needs)[0] != Required(needs)[1]
  {
  }

  lemma SplitKeepsA(required: seq<string>)
    requires |required| > 0
    ensures var reg := SplitBetween(required[0]);
            && "a" in CapableAfter(reg, required, |required|) && "b" !in CapableAfter(reg, required, |required|)
            && SupportsCapabilities(reg, required, |required|)
  {
    var reg := SplitBetween(required[0]);
    SplitOffers(required);
    CapableIff(reg, required, |required|, "a");
    CapableIff(reg, required, |required|, "b");
    assert Answers(reg, required[0]);
  }

  lemma NoneFits(required: seq<string>)
    requires |required| > 1 && required[0] != required[1]
    ensures !OneModelFits(SplitBetween(required[0]), required, "a")
  {
    var reg := SplitBetween(required[0]);
    forall m ensures !IsFitting(reg, required, "a", m) {
      assert Answers(reg, required[0]) && Answers(reg, required[1]);
    }
  }

  lemma SplitOffers(required: seq<string>)
    requires |required| > 0
    ensures forall i :: 0 <= i < |required| ==> Offers(SplitBetween(required[0]), required[i], "a")
    ensures !Offers(SplitBetween(required[0]), required[0], "b")
  {
    assert ONE in [ONE] && ANOTHER in [ANOTHER];
    assert Hosts([ONE], "a") && Hosts([ANOTHER], "a") && !Hosts([ONE], "b");
  }

  // ------------------------------------------------------------------ aliases

  /** The urls not yet mapped get the model name. */
  function Claim(m: map<string, string>, name: string, urls: seq<string>): map<string, string> {
    if urls == [] then m
    else
      var before := Claim(m, name, urls[..|urls| - 1]);
      var url := urls[|urls| - 1];
      if url in before then before else before[url := name]
  }

  function Served(reg: Registry, name: string): seq<string> {
    if reg.serving(name).Some? then reg.serving(name).value else []
  }

  function Resolve(reg: Registry, names: seq<string>): map<string, string> {
    if names == [] then map[]
    else
      var name := names[|names| - 1];
      Claim(Resolve(reg, names[..|names| - 1]), name, Served(reg, name))
  }

  /** The position of the first name that the registry says the url serves, else the
      length of the list. */
  function Earliest(reg: Registry, names: seq<string>, url: string): (i: nat)
    ensures i <= |names|
    ensures forall j :: 0 <= j < i ==> url !in Served(reg, names[j])
    ensures i < |names| ==> url in Served(reg, names[i])
  {
    if names == [] then 0
    else
      var before := Earliest(reg, names[..|names| - 1], url);
      if before < |names| - 1 || url in Served(reg, names[|names| - 1]) then before else |names|
  }

  lemma {:induction false} ClaimMaps(m: map<string, string>, name: string, urls: seq<string>, url: string)
    ensures var r := Claim(m, name, urls);
            && (url in r <==> url in m || url in urls)
            && (url in m ==> r[url] == m[url])
            && (url in r && url !in m ==> r[url] == name)
  {
    if urls != [] {
      ClaimMaps(m, name, urls[..|urls| - 1], url);
      assert urls == urls[..|urls| - 1] + [urls[|urls| - 1]];
    }
  }

  /** The first model found for an endpoint wins: a url is mapped if and only if some name
      of the list is served there, and then to the earliest such name. */
  lemma {:induction false} EarliestModelWins(reg: Registry, names: seq<string>, url: string)
    ensures url in Resolve(reg, names) <==> Earliest(reg, names, url) < |names|
    ensures url in Resolve(reg, names) ==> Resolve(reg, names)[url] == names[Earliest(reg, names, url)]
  {
    if names != [] {
      var before, name := names[..|names| - 1], names[|names| - 1];
      EarliestModelWins(reg, before, url);
      ClaimMaps(Resolve(reg, before), name, Served(reg, name), url);
    }
  }

  function AtMapped(m: map<string, string>): Endpoint -> bool {
    (e: Endpoint) => e.url in m
  }

  function Decide(req: Request, reply: Reply): Request {
    if reply.decision.Some? then req.(decision := reply.decision) else req
  }

  /** An alias that leads nowhere is routed as if it were a model's name. */
  function ByAliasName(reg: Registry, req: Request, candidates: seq<Endpoint>): Result {
    var reply := reg.route(req.modelName, candidates);
    (if reply.decision.Some? && reply.decision.value.status >= 400 then []
     else if reply.failed || reply.endpoints == [] then candidates
     else reply.endpoints, Decide(req, reply))
  }

  function AliasDecision(): Decision {
    NewDecision("alias", "routed", "alias resolved")
  }

  function ByAlias(reg: Registry, names: seq<string>, req: Request, candidates: seq<Endpoint>): Result {
    var mapped := Resolve(reg, names);
    var kept := Keep(candidates, AtMapped(mapped));
    if kept == [] then ByAliasName(reg, req, candidates)
    else (kept, req.(rewrites := Some(mapped), decision := Some(AliasDecision())))
  }

  predicate ServesSome(reg: Registry, names: seq<string>, e: Endpoint) {
    Earliest(reg, names, e.url) < |names|
  }

  /** Alias resolution succeeds if and only if some candidate serves an aliased model.
      Then exactly the candidates that do are returned, and the rewrite map sends each to
      the earliest model of the list it serves; otherwise the rewrite map is not touched. */
  lemma AliasOutcome(reg: Registry, names: seq<string>, req: Request, candidates: seq<Endpoint>)
    ensures var (endpoints, after) := ByAlias(reg, names, req, candidates);
            if exists c :: c in candidates && ServesSome(reg, names, c) then
              && (forall e :: e in endpoints <==> e in candidates && ServesSome(reg, names, e))
              && after.rewrites.Some?
              && (forall e :: e in endpoints ==>
                    && e.url in after.rewrites.value
                    && after.rewrites.value[e.url] == names[Earliest(reg, names, e.url)])
            else
              after.rewrites == req.rewrites && (endpoints, after) == ByAliasName(reg, req, candidates)
  {
    var mapped := Resolve(reg, names);
    forall e: Endpoint
      ensures e.url in mapped <==> ServesSome(reg, names, e)
      ensures e.url in mapped ==> mapped[e.url] == names[Earliest(reg, names, e.url)]
    {
      EarliestModelWins(reg, names, e.url);
    }
    var kept := Keep(candidates, AtMapped(mapped));
    if kept != [] {
      assert kept[0] in kept;
    }
  }

  // ----------------------------------------------------------------- pipeline

  function ByModel(reg: Registry, req: Request, candidates: seq<Endpoint>): Result {
    var reply := reg.route(req.modelName, candidates);
    (if !reply.failed then reply.endpoints
     else if reply.decision.Some? && reply.decision.value.status > 0 then []
     else candidates, Decide(req, reply))
  }

  function ByProfile(c: Config, req: Request, endpoints: seq<Endpoint>): Result {
    match ByType(req, endpoints)
    case None => ([], req)
    case Some(typed) =>
      if c.registry.None? then (typed, req)
      else
        var reg := c.registry.value;
        var capable := if req.needs.Some? then ByCapabilities(reg, req.needs.value, typed) else typed;
        if req.modelName == "" then (capable, req)
        else if req.modelName in c.aliases then ByAlias(reg, c.aliases[req.modelName], req, capable)
        else ByModel(reg, req, capable)
  }

  function FitsContext(tokens: int): Endpoint -> bool {
    (e: Endpoint) => e.maxContext == 0 || tokens <= e.maxContext
  }

  function ByContext(endpoints: seq<Endpoint>, tokens: int): seq<Endpoint> {
    var kept := Keep(endpoints, FitsContext(tokens));
    if tokens <= 0 || kept == [] then endpoints else kept
  }

  /** Either every endpoint returned fits the context, or none of them did. */
  lemma ContextFits(endpoints: seq<Endpoint>, tokens: int)
    requires tokens > 0
    ensures var r := ByContext(endpoints, tokens);
            || (r == endpoints && forall e :: e in r ==> e.maxContext != 0 && tokens > e.maxContext)
            || (forall e :: e in r <==> e in endpoints && (e.maxContext == 0 || tokens <= e.maxContext))
  {
    var kept := Keep(endpoints, FitsContext(tokens));
    if kept == [] {
      forall e | e in endpoints ensures e.maxContext != 0 && tokens > e.maxContext {
        assert e !in kept;
      }
    }
  }

  // ----------------------------------------------------------- provider routes

  function Add(s: seq<string>, kind: string): seq<string> {
    if kind == "" || kind in s then s else s + [kind]
  }

  function AddAll(s: seq<string>, kinds: seq<string>): seq<string> {
    if kinds == [] then s else Add(AddAll(s, kinds[..|kinds| - 1]), kinds[|kinds| - 1])
  }

  /** The profiles that advertise compatibility with OpenAI. */
  function Advertised(profiles: seq<(string, bool)>): seq<string> {
    if profiles == [] then []
    else
      var (name, open) := profiles[|profiles| - 1];
      Advertised(profiles[..|profiles| - 1]) + if open then [name] else []
  }

  function NormaliseProvider(factory: Option<Factory>, provider: string): string {
    match factory
    case None => NormaliseType(provider)
    case Some(f) => if provider in f.prefixes then f.prefixes[provider] else provider
  }

  /** Profiles are named, and spellings lead to profiles. */
  predicate WellLoaded(factory: Option<Factory>) {
    factory.Some? ==> "" !in factory.value.loaded && forall p :: p in factory.value.prefixes ==> factory.value.prefixes[p] != ""
  }

  /** The guard of the provider routes. */
  predicate IsProviderSupported(factory: Option<Factory>, provider: string) {
    var kind := NormaliseType(provider);
    match factory
    case None => kind in STATIC_PROVIDERS
    case Some(f) => kind == AUTO || (if kind in f.prefixes then f.prefixes[kind] in f.loaded else kind in f.loaded)
  }

  predicate IsOpenAI(provider: string) {
    provider == OPENAI || provider == OPENAI_COMPATIBLE
  }

  /** The profile of a provider's route. */
  function ProviderProfile(factory: Option<Factory>, provider: string): Request {
    var p := NormaliseProvider(factory, provider);
    if IsOpenAI(p) then
      var others := if factory.Some? then Advertised(factory.value.profiles) else STATIC_PROVIDERS;
      FRESH.(supportedBy := AddAll([OPENAI_COMPATIBLE], others))
    else
      FRESH.(supportedBy := Add([], p), failClosed := true)
  }

  /** A route of a supported provider other than OpenAI. */
  predicate IsScopedRoute(c: Config, provider: string) {
    WellLoaded(c.factory) && IsProviderSupported(c.factory, provider) && !IsOpenAI(NormaliseProvider(c.factory, provider))
  }

  /** Past the guard a provider has a name, so that its profile names a type. */
  lemma SupportedIsNamed(c: Config, provider: string)
    requires WellLoaded(c.factory) && IsProviderSupported(c.factory, provider)
    ensures NormaliseProvider(c.factory, provider) != ""
    ensures !IsOpenAI(NormaliseProvider(c.factory, provider)) ==>
              ProviderProfile(c.factory, provider).supportedBy == [NormaliseProvider(c.factory, provider)]
  {
    if provider == "" {
      assert NormaliseType(provider) == "" by {
        assert Lower(Dashed("")) == "";
      }
    }
  }

  /** The endpoints for a provider's route, and the request's own profile afterwards. */
  function ProviderEndpoints(c: Config, provider: string, healthy: seq<Endpoint>, req: Request, tokens: int): Result {
    var profile := ProviderProfile(c.factory, provider);
    var scoped := ByProfile(c, profile, healthy).0;
    if profile.failClosed && scoped == [] then ([], req)
    else
      var (endpoints, after) := if req.supportedBy != [] then ByProfile(c, req, scoped) else (scoped, req);
      (if tokens > 0 then ByContext(endpoints, tokens) else endpoints, after)
  }

  /** The registry's routing answers with candidates only. */
  ghost predicate RoutesAmong(c: Config) {
    c.registry.Some? ==>
      forall name, candidates :: Among(c.registry.value.route(name, candidates).endpoints, candidates)
  }

  lemma StagesStayAmong(reg: Registry, req: Request, endpoints: seq<Endpoint>)
    ensures ByType(req, endpoints).Some? ==> Among(ByType(req, endpoints).value, endpoints)
    ensures req.needs.Some? ==> Among(ByCapabilities(reg, req.needs.value, endpoints), endpoints)
  {
  }

  lemma RoutesStayAmong(reg: Registry, names: seq<string>, req: Request, candidates: seq<Endpoint>)
    requires Among(reg.route(req.modelName, candidates).endpoints, candidates)
    ensures Among(ByModel(reg, req, candidates).0, candidates)
    ensures Among(ByAlias(reg, names, req, candidates).0, candidates)
  {
  }

  lemma PipelineStaysAmong(c: Config, req: Request, endpoints: seq<Endpoint>)
    requires RoutesAmong(c)
    ensures Among(ByProfile(c, req, endpoints).0, endpoints)
  {
    var typed := ByType(req, endpoints);
    if c.registry.Some? {
      var reg := c.registry.value;
      StagesStayAmong(reg, req, endpoints);
      if typed.Some? {
        StagesStayAmong(reg, req, typed.value);
        var capable := if req.needs.Some? then ByCapabilities(reg, req.needs.value, typed.value) else typed.value;
        RoutesStayAmong(reg, if req.modelName in c.aliases then c.aliases[req.modelName] else [], req, capable);
      }
    }
  }

  /** The endpoint is of the provider's type, or leaves its type to be detected. */
  predicate InScope(provider: string, e: Endpoint) {
    NormaliseType(e.kind) == provider || NormaliseType(e.kind) == AUTO
  }

  ghost predicate AllInScope(c: Config, provider: string, healthy: seq<Endpoint>, req: Request, tokens: int) {
    forall e :: e in ProviderEndpoints(c, provider, healthy, req, tokens).0 ==>
                  e in healthy && InScope(NormaliseProvider(c.factory, provider), e)
  }

  /** A route of a provider other than OpenAI sends a request only to healthy endpoints of
      that provider, through every stage and fallback, whatever the request asks for. */
  lemma ProviderScope(c: Config, provider: string, healthy: seq<Endpoint>, req: Request, tokens: int)
    requires RoutesAmong(c)
    requires IsScopedRoute(c, provider)
    ensures AllInScope(c, provider, healthy, req, tokens)
  {
    var profile := ProviderProfile(c.factory, provider);
    var p := NormaliseProvider(c.factory, provider);
    SupportedIsNamed(c, provider);
    var scoped := ByProfile(c, profile, healthy).0;
    forall e | e in scoped ensures e in healthy && InScope(p, e) {
    }
    PipelineStaysAmong(c, req, scoped);
  }

  /** A request that asks for nothing more gets all of them: no healthy endpoint in scope is
      lost on the way. */
  lemma PlainProviderRoute(c: Config, provider: string, healthy: seq<Endpoint>, req: Request, e: Endpoint)
    requires IsScopedRoute(c, provider)
    requires req.supportedBy == []
    ensures e in ProviderEndpoints(c, provider, healthy, req, 0).0
            <==> e in healthy && InScope(NormaliseProvider(c.factory, provider), e)
  {
    var profile := ProviderProfile(c.factory, provider);
    SupportedIsNamed(c, provider);
    var kept := Keep(healthy, Compatible(profile.supportedBy));
    assert e in kept <==> e in healthy && InScope(NormaliseProvider(c.factory, provider), e);
  }

  /** Behind the guard an empty name would lose the scope: the first pass would keep every
      healthy endpoint.  The guard never lets one in. */
  lemma EmptyProviderIsUnscoped(c: Config, provider: string, healthy: seq<Endpoint>)
    requires NormaliseProvider(c.factory, provider) == ""
    ensures ProviderEndpoints(c, provider, healthy, FRESH, 0).0 == healthy
    ensures WellLoaded(c.factory) ==> !IsProviderSupported(c.factory, provider)
  {
    if WellLoaded(c.factory) && IsProviderSupported(c.factory, provider) {
      SupportedIsNamed(c, provider);
    }
  }

  /** An outage of the whole provider type: with no healthy endpoint in scope nothing is
      returned, and the request keeps the decision it had. */
  lemma OutageFailsClosed(c: Config, provider: string, healthy: seq<Endpoint>, req: Request, tokens: int)
    requires IsScopedRoute(c, provider)
    requires forall e :: e in healthy ==> !InScope(NormaliseProvider(c.factory, provider), e)
    ensures ProviderEndpoints(c, provider, healthy, req, tokens) == ([], req)
  {
    var profile := ProviderProfile(c.factory, provider);
    SupportedIsNamed(c, provider);
    NoneKept(healthy, Compatible(profile.supportedBy));
  }

  lemma OpenPassKeepsSome(c: Config, req: Request, endpoints: seq<Endpoint>)
    requires req.modelName == "" && !req.failClosed && endpoints != []
    ensures ByProfile(c, req, endpoints).0 != []
  {
  }

  /** A request that only names the types it supports is never left without an endpoint on
      an OpenAI route while any endpoint is healthy. */
  lemma OpenAIFallsOpen(c: Config, provider: string, healthy: seq<Endpoint>, req: Request, tokens: int)
    requires IsOpenAI(NormaliseProvider(c.factory, provider)) && healthy != []
    requires req.modelName == "" && !req.failClosed
    ensures ProviderEndpoints(c, provider, healthy, req, tokens).0 != []
  {
    var profile := ProviderProfile(c.factory, provider);
    OpenPassKeepsSome(c, profile, healthy);
    OpenPassKeepsSome(c, req, ByProfile(c, profile, healthy).0);
  }

  // -------------------------------------------------- with the real strategies

  /** The registry with one of the routing strategies behind it: an error of the lookup
      counts as a model nobody serves. */
  function WithStrategy(s: Strategy, serving: string -> Option<seq<string>>,
                        withCapability: string -> Option<seq<Model>>, refresh: Refresh): Registry {
    Registry(serving, withCapability,
             (name: string, candidates: seq<Endpoint>) =>
               Choose(s, candidates, if serving(name).Some? then serving(name).value else [], refresh))
  }

  /** What is returned for a model's name, or for an alias routed by its name, is justified
      by the decision left in the profile: routed to endpoints that serve the model, or a
      declared fallback; after a rejection nothing is returned. */
  lemma ServedOrFallback(s: Strategy, reg: Registry, refresh: Refresh, req: Request, candidates: seq<Endpoint>, byAlias: bool)
    requires reg == WithStrategy(s, reg.serving, reg.withCapability, refresh)
    ensures var (endpoints, after) := if byAlias then ByAliasName(reg, req, candidates) else ByModel(reg, req, candidates);
            && after.decision.Some? && after.rewrites == req.rewrites
            && match after.decision.value.action
               case "routed" => forall e :: e in endpoints <==> e in candidates && e.url in Served(reg, req.modelName)
               case "fallback" => true
               case _ => endpoints == [] && after.decision.value.status >= 400
  {
    var urls := Served(reg, req.modelName);
    assert reg.route(req.modelName, candidates) == Choose(s, candidates, urls, refresh);
    RoutedServes(s, candidates, urls, refresh);
    ActionsOf(s, candidates, urls, refresh);
  }

  /** With every strategy that does not widen, the scope holds unconditionally. */
  lemma ScopeWithStrategy(s: Strategy, c: Config, refresh: Refresh, provider: string,
                          healthy: seq<Endpoint>, req: Request, tokens: int)
    requires !Widens(s) && c.registry.Some?
    requires c.registry == Some(WithStrategy(s, c.registry.value.serving, c.registry.value.withCapability, refresh))
    requires IsScopedRoute(c, provider)
    ensures AllInScope(c, provider, healthy, req, tokens)
  {
    StaysAmongIff(s);
    var reg := c.registry.value;
    forall name, candidates ensures Among(reg.route(name, candidates).endpoints, candidates) {
      var urls := if reg.serving(name).Some? then reg.serving(name).value else [];
      assert reg.route(name, candidates) == Choose(s, candidates, urls, refresh);
    }
    ProviderScope(c, provider, healthy, req, tokens);
  }

  ghost predicate ScopeHolds(s: Strategy) {
    forall serving, withCapability, refresh, aliases, factory, provider, healthy, req, tokens ::
      var c := Config(Some(WithStrategy(s, serving, withCapability, refresh)), aliases, factory);
      IsScopedRoute(c, provider) ==> AllInScope(c, provider, healthy, req, tokens)
  }

  /** So the scope of every provider route holds, in every configuration and for every
      request, if and only if the strategy does not widen. */
  lemma ScopeHoldsIff(s: Strategy)
    ensures ScopeHolds(s) <==> !Widens(s)
  {
    if Widens(s) {
      WideningLeavesScope(s);
      var refresh := Refresh(true, Some([MINE, OTHER]));
      var c := Config(Some(WithStrategy(s, NOBODY, NO_MODEL, refresh)), map[], None);
      assert IsScopedRoute(c, "vllm") && !AllInScope(c, "vllm", [MINE, OTHER], ASKED, 0);
    } else {
      forall serving, withCapability, refresh, aliases, factory, provider, healthy, req, tokens
        ensures var c := Config(Some(WithStrategy(s, serving, withCapability, refresh)), aliases, factory);
                IsScopedRoute(c, provider) ==> AllInScope(c, provider, healthy, req, tokens)
      {
        var c := Config(Some(WithStrategy(s, serving, withCapability, refresh)), aliases, factory);
        if IsScopedRoute(c, provider) {
          ScopeWithStrategy(s, c, refresh, provider, healthy, req, tokens);
        }
      }
    }
  }

  const NOBODY: string -> Option<seq<string>> := (_: string) => Some([])
  const NO_MODEL: string -> Option<seq<Model>> := (_: string) => Some([])
  const MINE := Endpoint("a", "vllm", 0)
  const OTHER := Endpoint("b", "ollama", 0)

  /** Nobody serves any model; a refresh works, and finds both endpoints healthy. */
  function NobodyServes(s: Strategy): Config {
    var refresh := Refresh(true, Some([MINE, OTHER]));
    Config(Some(WithStrategy(s, NOBODY, NO_MODEL, refresh)), map[], None)
  }

  const ASKED := FRESH.(supportedBy := ["vllm"], modelName := "m")

  /** With a strategy that widens it does not: a request on the vllm route for a model
      nobody serves is answered with the ollama endpoint. */
  lemma WideningLeavesScope(s: Strategy)
    requires Widens(s)
    ensures IsScopedRoute(NobodyServes(s), "vllm")
    ensures OTHER in ProviderEndpoints(NobodyServes(s), "vllm", [MINE, OTHER], ASKED, 0).0
    ensures !AllInScope(NobodyServes(s), "vllm", [MINE, OTHER], ASKED, 0)
  {
    VllmProfile();
    OwnPass(s, ProviderProfile(None, "vllm"));
    RequestPass(s);
    Names();
    assert "vllm" in STATIC_PROVIDERS && NormaliseProvider(None, "vllm") == "vllm";
  }

  lemma Names()
    ensures NormaliseType("vllm") == "vllm" && NormaliseType("ollama") == "ollama"
  {
    assert Lower(Dashed("vllm")) == "vllm" && Lower(Dashed("ollama")) == "ollama";
  }

  lemma OnlyMine()
    ensures Keep([MINE, OTHER], Compatible(["vllm"])) == [MINE]
    ensures Keep([MINE], Compatible(["vllm"])) == [MINE]
  {
    Names();
    assert !Compatible(["vllm"])(OTHER);
    KeepPair(MINE, OTHER, Compatible(["vllm"]));
  }

  lemma VllmProfile()
    ensures ProviderProfile(None, "vllm") == FRESH.(supportedBy := ["vllm"], failClosed := true)
  {
    Names();
    assert NormaliseProvider(None, "vllm") == "vllm";
  }

  lemma OwnPass(s: Strategy, profile: Request)
    requires profile == FRESH.(supportedBy := ["vllm"], failClosed := true)
    ensures ByProfile(NobodyServes(s), profile, [MINE, OTHER]).0 == [MINE]
  {
    OnlyMine();
  }

  lemma RequestPass(s: Strategy)
    requires Widens(s)
    ensures ByProfile(NobodyServes(s), ASKED, [MINE]).0 == [MINE, OTHER]
  {
    OnlyMine();
    KeepPair(MINE, OTHER, AtUrls([]));
    assert Choose(s, [MINE], [], Refresh(true, Some([MINE, OTHER]))).endpoints == [MINE, OTHER];
  }
}

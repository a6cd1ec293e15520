/** The strategies that pick, among candidate endpoints, those a model may be routed to,
    and exactly when their choice stays among the candidates. */
module RoutingStrategies {

  import opened Wrappers

  datatype Endpoint = Endpoint(url: string, kind: string, maxContext: int)

  datatype Decision = Decision(strategy: string, action: string, reason: string, status: int)

  datatype Reply = Reply(endpoints: seq<Endpoint>, decision: Option<Decision>, failed: bool)

  datatype Strategy =
    | Strict
    | Optimistic(fallback: string)
    | Discovery(fallback: string, refreshOnMiss: bool)

  /** What a refresh of the discovery answers: whether it worked, and the endpoints that
      are healthy afterwards (None if they cannot be read). */
  datatype Refresh = Refresh(ok: bool, healthy: Option<seq<Endpoint>>)

  const NOT_FOUND := "model_not_found"

  function NewDecision(strategy: string, action: string, reason: string): Decision {
    Decision(strategy, action, reason, if action != "rejected" then 200 else if reason == NOT_FOUND then 404 else 503)
  }

  /** The endpoints that satisfy a predicate, in order. */
  function Keep(endpoints: seq<Endpoint>, keep: Endpoint -> bool): (r: seq<Endpoint>)
    ensures forall e :: e in r <==> e in endpoints && keep(e)
    ensures |r| <= |endpoints|
  {
    if endpoints == [] then []
    else
      var last := endpoints[|endpoints| - 1];
      assert endpoints == endpoints[..|endpoints| - 1] + [last];
      Keep(endpoints[..|endpoints| - 1], keep) + if keep(last) then [last] else []
  }

  /** One more round of a loop that appends the endpoints to keep. */
  lemma KeepNext(endpoints: seq<Endpoint>, i: nat, keep: Endpoint -> bool)
    requires i < |endpoints|
    ensures Keep(endpoints[..i + 1], keep) == Keep(endpoints[..i], keep) + if keep(endpoints[i]) then [endpoints[i]] else []
  {
    assert endpoints[..i + 1][..i] == endpoints[..i];
  }

  lemma KeepPair(a: Endpoint, b: Endpoint, keep: Endpoint -> bool)
    ensures Keep([a], keep) == if keep(a) then [a] else []
    ensures Keep([a, b], keep) == (if keep(a) then [a] else []) + if keep(b) then [b] else []
  {
    assert [a][..0] == [] && [a, b][..1] == [a] && [a, b][..2] == [a, b];
    KeepNext([a, b], 1, keep);
  }

  lemma {:induction false} NoneKept(endpoints: seq<Endpoint>, keep: Endpoint -> bool)
    requires forall e :: e in endpoints ==> !keep(e)
    ensures Keep(endpoints, keep) == []
  {
    if endpoints != [] {
      NoneKept(endpoints[..|endpoints| - 1], keep);
    }
  }

  function AtUrls(urls: seq<string>): Endpoint -> bool {
    (e: Endpoint) => e.url in urls
  }

  predicate FallsBack(fallback: string) {
    fallback != "none" && fallback != "compatible_only"
  }

  function Routed(strategy: string, endpoints: seq<Endpoint>, action: string, reason: string): Reply {
    Reply(endpoints, Some(NewDecision(strategy, action, reason)), false)
  }

  function Rejected(strategy: string, reason: string, failed: bool): Reply {
    Reply([], Some(NewDecision(strategy, "rejected", reason)), failed)
  }

  /** The reply of a strategy: the healthy endpoints are the candidates, the urls those
      that the registry says serve the model.  An empty fallback stands for
      compatible_only in the optimistic strategy only. */
  function Choose(s: Strategy, healthy: seq<Endpoint>, urls: seq<string>, refresh: Refresh): Reply {
    var routable := Keep(healthy, AtUrls(urls));
    match s
    case Strict =>
      if urls == [] then Rejected("strict", NOT_FOUND, true)
      else if routable == [] then Rejected("strict", "model_unavailable", true)
      else Routed("strict", routable, "routed", "model_found")
    case Optimistic(fallback) =>
      if routable != [] then Routed("optimistic", routable, "routed", "model_found")
      else if fallback != "" && FallsBack(fallback) then
        Routed("optimistic", healthy, "fallback", if urls == [] then "model_not_found_fallback" else "all_healthy_fallback")
      else if urls == [] then Rejected("optimistic", NOT_FOUND, false)
      else if fallback == "none" then Rejected("optimistic", "model_unavailable_no_fallback", false)
      else Rejected("optimistic", "model_unavailable_compatible_only", false)
    case Discovery(fallback, refreshOnMiss) =>
      if routable != [] then Routed("discovery", routable, "routed", "model_found_no_refresh")
      else if !refreshOnMiss then Rejected("discovery", "model_unavailable_no_refresh", true)
      else if !refresh.ok then
        if FallsBack(fallback) then Routed("discovery", healthy, "fallback", "discovery_failed_all_fallback")
        else if fallback == "none" then Rejected("discovery", "discovery_failed_no_fallback", true)
        else Rejected("discovery", "discovery_failed_compatible_only", true)
      else if refresh.healthy.None? then Routed("discovery", healthy, "fallback", "discovery_error_fallback")
      else if refresh.healthy.value == [] then Rejected("discovery", "no_healthy_after_discovery", true)
      else if FallsBack(fallback) then Routed("discovery", refresh.healthy.value, "fallback", "all_healthy_after_discovery")
      else Rejected("discovery", "model_unavailable_after_discovery", true)
  }

  predicate Among(endpoints: seq<Endpoint>, candidates: seq<Endpoint>) {
    forall e :: e in endpoints ==> e in candidates
  }

  /** The configuration under which a strategy may answer with endpoints it was not given:
      discovery that refreshes and then falls back to every healthy endpoint. */
  predicate Widens(s: Strategy) {
    s.Discovery? && s.refreshOnMiss && FallsBack(s.fallback)
  }

  ghost predicate StaysAmong(s: Strategy) {
    forall healthy, urls, refresh :: Among(Choose(s, healthy, urls, refresh).endpoints, healthy)
  }

  /** A strategy always answers with candidates, whatever the registry and the refresh say,
      if and only if it is not configured to widen. */
  lemma StaysAmongIff(s: Strategy)
    ensures StaysAmong(s) <==> !Widens(s)
  {
    if Widens(s) {
      var given, other := Endpoint("a", "vllm", 0), Endpoint("b", "ollama", 0);
      var r := Choose(s, [given], [], Refresh(true, Some([other]))).endpoints;
      assert Keep([given], AtUrls([])) == [];
      assert other in r && !Among(r, [given]);
    } else {
      forall healthy, urls, refresh ensures Among(Choose(s, healthy, urls, refresh).endpoints, healthy) {
      }
    }
  }

  lemma ActionsDiffer()
    ensures "routed" != "fallback" && "routed" != "rejected" && "fallback" != "rejected"
  {
    assert "routed"[1] == 'o' && "fallback"[0] == 'f' && "rejected"[0] == 'r' && "rejected"[1] == 'e';
  }

  /** A reply with endpoints, or a rejection. */
  predicate Replies(r: Reply, action: string) {
    r.decision.Some? && r.decision.value.action == action && r.decision.value.status == 200 && !r.failed
  }

  predicate Rejects(r: Reply) {
    r.decision.Some? && r.decision.value.action == "rejected" && r.decision.value.status >= 400 && r.endpoints == []
  }

  /** Whatever candidates serve the model are the answer; otherwise it falls back or is
      rejected. */
  predicate Shaped(r: Reply, routable: seq<Endpoint>) {
    if routable != [] then Replies(r, "routed") && r.endpoints == routable else Replies(r, "fallback") || Rejects(r)
  }

  lemma StrictShape(healthy: seq<Endpoint>, urls: seq<string>, refresh: Refresh)
    ensures Shaped(Choose(Strict, healthy, urls, refresh), Keep(healthy, AtUrls(urls)))
  {
    var routable := Keep(healthy, AtUrls(urls));
    ActionsDiffer();
    if routable != [] {
      assert routable[0] in routable;
    }
  }

  lemma OptimisticShape(fallback: string, healthy: seq<Endpoint>, urls: seq<string>, refresh: Refresh)
    ensures Shaped(Choose(Optimistic(fallback), healthy, urls, refresh), Keep(healthy, AtUrls(urls)))
  {
    ActionsDiffer();
  }

  lemma DiscoveryShape(fallback: string, refreshOnMiss: bool, healthy: seq<Endpoint>, urls: seq<string>, refresh: Refresh)
    ensures Shaped(Choose(Discovery(fallback, refreshOnMiss), healthy, urls, refresh), Keep(healthy, AtUrls(urls)))
  {
    ActionsDiffer();
  }

  lemma ChooseShape(s: Strategy, healthy: seq<Endpoint>, urls: seq<string>, refresh: Refresh)
    ensures Shaped(Choose(s, healthy, urls, refresh), Keep(healthy, AtUrls(urls)))
  {
    match s
    case Strict => StrictShape(healthy, urls, refresh);
    case Optimistic(fallback) => OptimisticShape(fallback, healthy, urls, refresh);
    case Discovery(fallback, refreshOnMiss) => DiscoveryShape(fallback, refreshOnMiss, healthy, urls, refresh);
  }

  /** Routing is sound: what is answered as routed serves the model, and it is all of the
      candidates that do; a rejection carries an error status and no endpoint. */
  lemma RoutedServes(s: Strategy, healthy: seq<Endpoint>, urls: seq<string>, refresh: Refresh)
    ensures var r := Choose(s, healthy, urls, refresh);
            && r.decision.Some?
            && (r.decision.value.action == "routed" <==> exists e :: e in healthy && e.url in urls)
            && (r.decision.value.action == "routed" ==> forall e :: e in r.endpoints <==> e in healthy && e.url in urls)
            && (r.decision.value.action == "rejected" <==> r.decision.value.status >= 400)
            && (r.decision.value.action == "rejected" ==> r.endpoints == [])
  {
    var routable := Keep(healthy, AtUrls(urls));
    ActionsDiffer();
    ChooseShape(s, healthy, urls, refresh);
    if routable != [] {
      assert routable[0] in routable;
    }
  }

  /** Only rejections fail, and what is routed or falls back succeeds with status 200. */
  lemma ActionsOf(s: Strategy, healthy: seq<Endpoint>, urls: seq<string>, refresh: Refresh)
    ensures var r := Choose(s, healthy, urls, refresh);
            && r.decision.Some?
            && r.decision.value.action in ["routed", "fallback", "rejected"]
            && (r.failed ==> r.decision.value.action == "rejected")
            && (r.decision.value.action == "routed" ==> r.endpoints != [])
            && (r.decision.value.action != "rejected" <==> r.decision.value.status == 200)
  {
    ActionsDiffer();
    ChooseShape(s, healthy, urls, refresh);
  }

  predicate SomeServes(healthy: seq<Endpoint>, urls: seq<string>) {
    exists e :: e in healthy && e.url in urls
  }

  /** The configurations and refreshes with which a strategy falls back. */
  predicate MayFallBack(s: Strategy, refresh: Refresh) {
    match s
    case Strict => false
    case Optimistic(fallback) => fallback !in ["", "none", "compatible_only"]
    case Discovery(fallback, refreshOnMiss) =>
      && refreshOnMiss
      && (|| (refresh.ok && refresh.healthy.None?)
          || (fallback !in ["none", "compatible_only"] && (refresh.ok ==> refresh.healthy.value != [])))
  }

  lemma OptimisticFallback(fallback: string, healthy: seq<Endpoint>, urls: seq<string>, refresh: Refresh)
    ensures FallbackOf(Optimistic(fallback), healthy, urls, refresh)
  {
    ActionsDiffer();
    ServingAreKept(healthy, urls);
  }

  lemma DiscoveryFallback(fallback: string, refreshOnMiss: bool, healthy: seq<Endpoint>, urls: seq<string>, refresh: Refresh)
    ensures FallbackOf(Discovery(fallback, refreshOnMiss), healthy, urls, refresh)
  {
    ActionsDiffer();
    ServingAreKept(healthy, urls);
  }

  ghost predicate FallbackOf(s: Strategy, healthy: seq<Endpoint>, urls: seq<string>, refresh: Refresh) {
    var r := Choose(s, healthy, urls, refresh);
    && (r.decision.value.action == "fallback" <==> !SomeServes(healthy, urls) && MayFallBack(s, refresh))
    && (r.decision.value.action == "fallback" ==>
          r.endpoints == if s.Discovery? && refresh.ok && refresh.healthy.Some? then refresh.healthy.value else healthy)
  }

  lemma ServingAreKept(healthy: seq<Endpoint>, urls: seq<string>)
    ensures SomeServes(healthy, urls) <==> Keep(healthy, AtUrls(urls)) != []
  {
    var kept := Keep(healthy, AtUrls(urls));
    if kept != [] {
      assert kept[0] in kept;
    }
    if SomeServes(healthy, urls) {
      var e :| e in healthy && e.url in urls;
      assert e in kept;
    }
  }

  /** A strategy falls back if and only if no candidate serves the model and it is configured
      to; it then answers with all candidates, or with what a refresh found. */
  lemma FallsBackIff(s: Strategy, healthy: seq<Endpoint>, urls: seq<string>, refresh: Refresh)
    ensures FallbackOf(s, healthy, urls, refresh)
  {
    match s
    case Strict =>
      ActionsDiffer();
      ServingAreKept(healthy, urls);
    case Optimistic(fallback) => OptimisticFallback(fallback, healthy, urls, refresh);
    case Discovery(fallback, refreshOnMiss) => DiscoveryFallback(fallback, refreshOnMiss, healthy, urls, refresh);
  }

  /** A rejection says that the model is unknown if the registry names nobody for it and the
      strategy does not discover, and unavailable otherwise; all but optimistic ones fail. */
  lemma RejectionStatus(s: Strategy, healthy: seq<Endpoint>, urls: seq<string>, refresh: Refresh)
    requires Choose(s, healthy, urls, refresh).decision.value.action == "rejected"
    ensures var r := Choose(s, healthy, urls, refresh);
            && r.decision.value.status == (if urls == [] && !s.Discovery? then 404 else 503)
            && (r.failed <==> !s.Optimistic?)
  {
    ActionsDiffer();
  }
}

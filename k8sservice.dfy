/** The single-service check: a named Kubernetes service must exist in the
    snapshot and, on every agent, be realized by a service whose backends are
    listed by the endpoints and programmed in the BPF LB map. */
module K8sServiceValidation {
  import opened Wrappers
  import opened ServiceModel
  import opened ServiceValidation

  /** A realized service realizes Kubernetes service `s`: its realized frontend
      has the ClusterIP and one of the ports of `s`. */
  predicate Realizes(c: CiliumService, s: K8sService) {
    c.frontend.ip == s.clusterIP && c.frontend.port in s.ports
  }

  /** The first realized service that realizes `s`. */
  function FirstRealizing(cs: seq<CiliumService>, s: K8sService): (r: Option<nat>)
    ensures r.Some? ==> r.value < |cs| && Realizes(cs[r.value], s)
    ensures r.Some? ==> forall j :: 0 <= j < r.value ==> !Realizes(cs[j], s)
    ensures r.None? <==> forall j :: 0 <= j < |cs| ==> !Realizes(cs[j], s)
  {
    if |cs| == 0 then None
    else if Realizes(cs[0], s) then Some(0)
    else match FirstRealizing(cs[1..], s)
      case None => None
      case Some(i) => Some(i + 1)
  }

  /** What validateK8sService returns: no realizing service is an error;
      otherwise the first realizing one is checked by validateCiliumSvc against
      `s` alone, then by validateCiliumSvcLB. */
  ghost function K8sServiceVerdict(s: K8sService, eps: seq<K8sEndpoints>, cs: seq<CiliumService>, lbMap: map<string, seq<string>>): Outcome<ServiceError> {
    match FirstRealizing(cs, s)
    case None => Fail(NoCiliumServiceFor(s.namespace, s.name))
    case Some(i) =>
      var v := SvcVerdict(cs[i], [s], eps);
      if v.Fail? then v else ValidateCiliumSvcLB(cs[i], lbMap)
  }

  /** Against `s` alone, a service that realizes `s` always matches it, so only
      its backends can fail validateCiliumSvc. */
  lemma SvcVerdictAgainstRealized(c: CiliumService, s: K8sService, eps: seq<K8sEndpoints>)
    requires Realizes(c, s)
    ensures MatchedService(c, [s]) == Some(0)
    ensures SvcVerdict(c, [s], eps).Pass? <==>
              forall b :: 0 <= b < |c.backends| ==> KnownBackend(c.backends[b], eps)
    ensures SvcVerdict(c, [s], eps).Fail? ==> SvcVerdict(c, [s], eps).error.BackendNotInEndpoints?
  {
    assert FirstWithClusterIP([s], c.frontend.ip) == Some(0);
    SvcVerdictPass(c, [s], eps);
  }

  /** validateK8sService never reports an unmatched IP or port: its errors are a
      missing realizing service, an unknown backend or an LB problem. */
  lemma K8sServiceVerdictErrors(s: K8sService, eps: seq<K8sEndpoints>, cs: seq<CiliumService>, lbMap: map<string, seq<string>>)
    ensures var v := K8sServiceVerdict(s, eps, cs, lbMap);
      v.Fail? ==> v.error.NoCiliumServiceFor? || v.error.BackendNotInEndpoints?
                  || v.error.LBEntryNotFound? || v.error.BackendNotInLB?
  {
    match FirstRealizing(cs, s)
    case None =>
    case Some(i) =>
      SvcVerdictAgainstRealized(cs[i], s, eps);
  }

  /** validateK8sService succeeds exactly when some realized service realizes
      `s` and the first one has every backend listed by an endpoint object and
      programmed in the LB map. */
  lemma K8sServiceVerdictPass(s: K8sService, eps: seq<K8sEndpoints>, cs: seq<CiliumService>, lbMap: map<string, seq<string>>)
    ensures K8sServiceVerdict(s, eps, cs, lbMap).Pass? <==>
              FirstRealizing(cs, s).Some?
              && (forall b :: 0 <= b < |cs[FirstRealizing(cs, s).value].backends| ==>
                    KnownBackend(cs[FirstRealizing(cs, s).value].backends[b], eps))
              && LBConsistent(cs[FirstRealizing(cs, s).value], lbMap)
  {
    match FirstRealizing(cs, s)
    case None =>
    case Some(i) =>
      SvcVerdictAgainstRealized(cs[i], s, eps);
  }

  /** validateK8sService. The labelled loop stops at the first realized service
      whose frontend has the service's ClusterIP and one of its ports. */
  method ValidateK8sService(k8sService: K8sService, k8sEndpoints: seq<K8sEndpoints>, ciliumSvcs: seq<CiliumService>, ciliumLB: map<string, seq<string>>)
    returns (err: Outcome<ServiceError>)
    ensures err == K8sServiceVerdict(k8sService, k8sEndpoints, ciliumSvcs, ciliumLB)
  {
    var ciliumService: Option<nat> := None;
    label CiliumServices:
    for i := 0 to |ciliumSvcs|
      invariant ciliumService.None?
      invariant forall j :: 0 <= j < i ==> !Realizes(ciliumSvcs[j], k8sService)
    {
      var cSvc := ciliumSvcs[i];
      if cSvc.frontend.ip == k8sService.clusterIP {
        for k := 0 to |k8sService.ports|
          invariant forall m :: 0 <= m < k ==> k8sService.ports[m] != cSvc.frontend.port
        {
          if cSvc.frontend.port == k8sService.ports[k] {
            ciliumService := Some(i);
            break CiliumServices;
          }
        }
      }
    }
    assert ciliumService == FirstRealizing(ciliumSvcs, k8sService);
    if ciliumService.None? {
      return Fail(NoCiliumServiceFor(k8sService.namespace, k8sService.name));
    }
    var cSvc := ciliumSvcs[ciliumService.value];
    var temp: set<string> := {};
    var e, _ := ValidateCiliumSvc(cSvc, [k8sService], k8sEndpoints, temp);
    if e.Fail? {
      return e;
    }
    err := CheckCiliumSvcLB(cSvc, ciliumLB);
  }

  /** The first Kubernetes service with the given name and namespace. */
  function FirstNamed(svcs: seq<K8sService>, name: string, namespace: string): (r: Option<nat>)
    ensures r.Some? ==> r.value < |svcs| && svcs[r.value].name == name && svcs[r.value].namespace == namespace
    ensures r.Some? ==> forall j :: 0 <= j < r.value ==> !(svcs[j].name == name && svcs[j].namespace == namespace)
    ensures r.None? <==> forall j :: 0 <= j < |svcs| ==> !(svcs[j].name == name && svcs[j].namespace == namespace)
  {
    if |svcs| == 0 then None
    else if svcs[0].name == name && svcs[0].namespace == namespace then Some(0)
    else match FirstNamed(svcs[1..], name, namespace)
      case None => None
      case Some(i) => Some(i + 1)
  }

  /** The validateK8sService verdict of `s` on each of the leading `n` agents. */
  ghost function K8sVerdicts(agents: seq<AgentServices>, s: K8sService, eps: seq<K8sEndpoints>, n: nat): (r: seq<Outcome<ServiceError>>)
    requires n <= |agents|
    ensures |r| == n
    ensures forall k :: 0 <= k < n ==> r[k] == K8sServiceVerdict(s, eps, agents[k].services, agents[k].loadBalancers)
  {
    if n == 0 then []
    else K8sVerdicts(agents, s, eps, n - 1) + [K8sServiceVerdict(s, eps, agents[n - 1].services, agents[n - 1].loadBalancers)]
  }

  /** What servicePreFlightCheck returns: the service must be in the snapshot,
      then the first agent on which validateK8sService fails is reported. */
  ghost function ServiceVerdict(cache: ServiceCache, name: string, namespace: string): Outcome<ServiceError> {
    match FirstNamed(cache.services, name, namespace)
    case None => Fail(ServiceNotInCache(name, namespace))
    case Some(i) => AgentsK8sVerdict(cache.agents, cache.services[i], cache.endpoints)
  }

  /** The per-agent part of servicePreFlightCheck: the first agent on which
      validateK8sService fails, wrapped with that agent. */
  ghost function AgentsK8sVerdict(agents: seq<AgentServices>, s: K8sService, eps: seq<K8sEndpoints>): Outcome<ServiceError> {
    var verdicts := K8sVerdicts(agents, s, eps, |agents|);
    match FirstFail(verdicts, |verdicts|)
    case None => Pass
    case Some(k) => Fail(OnAgent(agents[k].agent, verdicts[k].error))
  }

  /** servicePreFlightCheck succeeds exactly when the named service is in the
      snapshot and validateK8sService passes on every agent. */
  lemma ServiceVerdictPass(cache: ServiceCache, name: string, namespace: string)
    ensures ServiceVerdict(cache, name, namespace).Pass? <==>
              FirstNamed(cache.services, name, namespace).Some?
              && forall k :: 0 <= k < |cache.agents| ==>
                   K8sServiceVerdict(cache.services[FirstNamed(cache.services, name, namespace).value], cache.endpoints,
                                     cache.agents[k].services, cache.agents[k].loadBalancers).Pass?
  {
  }

  /** The lookup loop of servicePreFlightCheck: the first service with the
      given name and namespace. */
  method FindService(svcs: seq<K8sService>, serviceName: string, serviceNamespace: string) returns (service: Option<nat>)
    ensures service == FirstNamed(svcs, serviceName, serviceNamespace)
  {
    service := None;
    for i := 0 to |svcs|
      invariant forall j :: 0 <= j < i ==> !(svcs[j].name == serviceName && svcs[j].namespace == serviceNamespace)
    {
      var s := svcs[i];
      if s.name == serviceName && s.namespace == serviceNamespace {
        service := Some(i);
        break;
      }
    }
  }

  /** servicePreFlightCheck over a snapshot. */
  method ServicePreFlightCheck(cache: ServiceCache, serviceName: string, serviceNamespace: string) returns (err: Outcome<ServiceError>)
    ensures err == ServiceVerdict(cache, serviceName, serviceNamespace)
  {
    var service := FindService(cache.services, serviceName, serviceNamespace);
    if service.None? {
      return Fail(ServiceNotInCache(serviceName, serviceNamespace));
    }
    err := ValidateOnAgents(cache.agents, cache.services[service.value], cache.endpoints);
  }

  /** The agent loop of servicePreFlightCheck, stopping at the first agent on
      which validateK8sService fails. */
  method ValidateOnAgents(agents: seq<AgentServices>, svc: K8sService, eps: seq<K8sEndpoints>) returns (err: Outcome<ServiceError>)
    ensures err == AgentsK8sVerdict(agents, svc, eps)
  {
    ghost var verdicts := K8sVerdicts(agents, svc, eps, |agents|);
    for p := 0 to |agents|
      invariant FirstFail(verdicts, p).None?
    {
      var pod := agents[p];
      var e := ValidateK8sService(svc, eps, pod.services, pod.loadBalancers);
      assert e == verdicts[p];
      if e.Fail? {
        FirstFailStable(verdicts, p + 1, |verdicts|);
        return Fail(OnAgent(pod.agent, e.error));
      }
    }
    return Pass;
  }

  /** No two Kubernetes services share a "namespace/name" key. */
  predicate UniqueKeys(svcs: seq<K8sService>) {
    forall i, j :: 0 <= i < |svcs| && 0 <= j < |svcs| && ServiceKey(svcs[i]) == ServiceKey(svcs[j]) ==> i == j
  }

  /** With unique keys, a realized service that contributes the key of
      service `j` has that service's ClusterIP and one of its ports. */
  lemma KeyOfRealizes(c: CiliumService, svcs: seq<K8sService>, j: nat)
    requires UniqueKeys(svcs) && j < |svcs| && ServiceKey(svcs[j]) in KeyOf(c, svcs)
    ensures Realizes(c, svcs[j])
  {
    var m := MatchedService(c, svcs).value;
    assert ServiceKey(svcs[m]) == ServiceKey(svcs[j]);
    assert m == j;
  }

  /** On an agent that passes the full service check, every non-headless
      Kubernetes service passes the single-service check as well: the service
      that realizes it is among those whose backends and LB entries were
      already validated. */
  lemma ConsistentAgentPassesK8sService(a: AgentServices, svcs: seq<K8sService>, eps: seq<K8sEndpoints>, j: nat)
    requires UniqueKeys(svcs) && j < |svcs| && !Headless(svcs[j])
    requires AgentConsistent(a, svcs, eps)
    ensures K8sServiceVerdict(svcs[j], eps, a.services, a.loadBalancers) == Pass
  {
    var s := svcs[j];
    assert Realized(s, a.services, svcs);
    var i :| 0 <= i < |a.services| && ServiceKey(s) in KeyOf(a.services[i], svcs);
    KeyOfRealizes(a.services[i], svcs, j);
    var f := FirstRealizing(a.services, s).value;
    SvcVerdictAgainstRealized(a.services[f], s, eps);
    assert LBConsistent(a.services[f], a.loadBalancers);
  }

  /** A snapshot that passes the full service check passes the
      single-service check for any non-headless service it holds. */
  lemma CiliumServicesPassImpliesServicePass(cache: ServiceCache, name: string, namespace: string)
    requires UniqueKeys(cache.services)
    requires FirstNamed(cache.services, name, namespace).Some?
    requires !Headless(cache.services[FirstNamed(cache.services, name, namespace).value])
    requires CiliumServicesVerdict(cache).Pass?
    ensures ServiceVerdict(cache, name, namespace) == Pass
  {
    var j := FirstNamed(cache.services, name, namespace).value;
    CiliumServicesVerdictPass(cache);
    forall k | 0 <= k < |cache.agents|
      ensures K8sServiceVerdict(cache.services[j], cache.endpoints, cache.agents[k].services, cache.agents[k].loadBalancers) == Pass
    {
      ConsistentAgentPassesK8sService(cache.agents[k], cache.services, cache.endpoints, j);
    }
    ServiceVerdictPass(cache, name, namespace);
  }
}

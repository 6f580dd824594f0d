/** The three-way service consistency validator. Against one snapshot it
    checks, per agent, that every realized service maps to a Kubernetes service
    (by ClusterIP, then port) whose endpoints contain each realized backend,
    that every non-headless Kubernetes service was matched, that the BPF LB map
    holds every realized frontend with every backend programmed, and that the
    LB map has as many keys as the agent has services. */
module ServiceValidation {
  import opened Wrappers
  import opened GoStrings
  import opened ServiceModel

  /** The validator's errors, one per distinct message of the checks. */
  datatype ServiceError =
    | NoServiceWithIP(ip: string)
    | NoServiceWithAddress(ip: string, port: Uint16)
    | BackendNotInEndpoints(ip: string, port: Uint16)
    | LBEntryNotFound(frontend: string)
    | BackendNotInLB(backend: string)
    | NoCiliumServiceFor(namespace: string, name: string)
    | ServiceNotInCache(name: string, namespace: string)
    | OnAgent(agent: AgentHandle, cause: ServiceError)
    | ServicesNotRealized(keys: seq<string>, agent: AgentHandle)
    | LengthMismatch(agent: AgentHandle)

  // ---------------------------------------------------------------------------
  // validateCiliumSvc
  // ---------------------------------------------------------------------------

  /** The first Kubernetes service whose ClusterIP is `ip`. */
  function FirstWithClusterIP(svcs: seq<K8sService>, ip: string): (r: Option<nat>)
    ensures r.Some? ==> r.value < |svcs| && svcs[r.value].clusterIP == ip
    ensures r.Some? ==> forall j :: 0 <= j < r.value ==> svcs[j].clusterIP != ip
    ensures r.None? <==> forall j :: 0 <= j < |svcs| ==> svcs[j].clusterIP != ip
  {
    if |svcs| == 0 then None
    else if svcs[0].clusterIP == ip then Some(0)
    else match FirstWithClusterIP(svcs[1..], ip)
      case None => None
      case Some(i) => Some(i + 1)
  }

  /** The Kubernetes service a realized service is matched with: the first one
      with its frontend IP, provided that one also has its frontend port.
      A later service with the same IP is never considered. */
  function MatchedService(c: CiliumService, svcs: seq<K8sService>): (r: Option<nat>)
    ensures r.Some? ==> r.value < |svcs| && svcs[r.value].clusterIP == c.frontend.ip
    ensures r.Some? ==> c.frontend.port in svcs[r.value].ports
  {
    match FirstWithClusterIP(svcs, c.frontend.ip)
    case None => None
    case Some(i) => if c.frontend.port in svcs[i].ports then Some(i) else None
  }

  /** The match is the first service with the frontend IP, and there is no
      match exactly when no service has that IP or the first one lacks the
      frontend port, whatever later services with the same IP offer. */
  lemma MatchedServiceIsFirst(c: CiliumService, svcs: seq<K8sService>)
    ensures var r := MatchedService(c, svcs);
      r.Some? ==> forall j :: 0 <= j < r.value ==> svcs[j].clusterIP != c.frontend.ip
    ensures var r := MatchedService(c, svcs);
      r.None? <==> FirstWithClusterIP(svcs, c.frontend.ip).None?
                   || c.frontend.port !in svcs[FirstWithClusterIP(svcs, c.frontend.ip).value].ports
  {
  }

  /** The found-set entry validateCiliumSvc adds for `c`: the key of the
      matched service, or nothing when the IP or the port is unmatched. */
  function KeyOf(c: CiliumService, svcs: seq<K8sService>): set<string> {
    match MatchedService(c, svcs)
    case None => {}
    case Some(i) => {ServiceKey(svcs[i])}
  }

  /** Some endpoint object lists `b` among its addresses. Every endpoint object
      is searched, not only those of the matched service. */
  ghost predicate KnownBackend(b: BackendAddress, eps: seq<K8sEndpoints>) {
    exists e :: 0 <= e < |eps| && b in EndpointAddresses(eps[e].subsets)
  }

  /** The position of the first realized backend that no endpoint object lists. */
  ghost function FirstUnknownBackend(backends: seq<BackendAddress>, eps: seq<K8sEndpoints>): (r: Option<nat>)
    ensures r.Some? ==> r.value < |backends| && !KnownBackend(backends[r.value], eps)
    ensures r.Some? ==> forall j {:trigger KnownBackend(backends[j], eps)} :: 0 <= j < r.value ==> KnownBackend(backends[j], eps)
    ensures r.None? <==> forall j {:trigger KnownBackend(backends[j], eps)} :: 0 <= j < |backends| ==> KnownBackend(backends[j], eps)
  {
    if |backends| == 0 then None
    else if !KnownBackend(backends[0], eps) then Some(0)
    else match FirstUnknownBackend(backends[1..], eps)
      case None => None
      case Some(k) => Some(k + 1)
  }

  /** What validateCiliumSvc returns for `c`. */
  ghost function SvcVerdict(c: CiliumService, svcs: seq<K8sService>, eps: seq<K8sEndpoints>): Outcome<ServiceError> {
    match FirstWithClusterIP(svcs, c.frontend.ip)
    case None => Fail(NoServiceWithIP(c.specFrontend.ip))
    case Some(i) =>
      if c.frontend.port !in svcs[i].ports then Fail(NoServiceWithAddress(c.specFrontend.ip, c.specFrontend.port))
      else match FirstUnknownBackend(c.backends, eps)
        case None => Pass
        case Some(k) => Fail(BackendNotInEndpoints(c.backends[k].ip, c.backends[k].port))
  }

  /** validateCiliumSvc succeeds exactly when the service is matched by IP and
      port and every realized backend is listed by some endpoint object. */
  lemma SvcVerdictPass(c: CiliumService, svcs: seq<K8sService>, eps: seq<K8sEndpoints>)
    ensures SvcVerdict(c, svcs, eps).Pass? <==>
              MatchedService(c, svcs).Some? && forall i :: 0 <= i < |c.backends| ==> KnownBackend(c.backends[i], eps)
  {
  }

  /** Once the service is matched, a failure names the first backend, in
      realized order, that no endpoint object lists. */
  lemma SvcVerdictNamesFirstUnknownBackend(c: CiliumService, svcs: seq<K8sService>, eps: seq<K8sEndpoints>)
    requires MatchedService(c, svcs).Some? && SvcVerdict(c, svcs, eps).Fail?
    ensures exists k :: 0 <= k < |c.backends| && !KnownBackend(c.backends[k], eps)
                        && (forall j :: 0 <= j < k ==> KnownBackend(c.backends[j], eps))
                        && SvcVerdict(c, svcs, eps) == Fail(BackendNotInEndpoints(c.backends[k].ip, c.backends[k].port))
  {
  }

  /** An unmatched IP or port is reported with the spec frontend. */
  lemma SvcVerdictUnmatched(c: CiliumService, svcs: seq<K8sService>, eps: seq<K8sEndpoints>)
    ensures FirstWithClusterIP(svcs, c.frontend.ip).None? ==>
              SvcVerdict(c, svcs, eps) == Fail(NoServiceWithIP(c.specFrontend.ip))
    ensures FirstWithClusterIP(svcs, c.frontend.ip).Some? && MatchedService(c, svcs).None? ==>
              SvcVerdict(c, svcs, eps) == Fail(NoServiceWithAddress(c.specFrontend.ip, c.specFrontend.port))
  {
  }

  /** Backend `b` appears in the addresses of one of the first `n` endpoint objects. */
  ghost predicate KnownIn(b: BackendAddress, eps: seq<K8sEndpoints>, n: int) {
    exists e :: 0 <= e < n && e < |eps| && b in EndpointAddresses(eps[e].subsets)
  }

  /** The endpoint scan of validateCiliumSvc for one backend: every address of
      every endpoint object is compared, with no early exit. */
  method BackendInEndpoints(backAddr: BackendAddress, k8sEps: seq<K8sEndpoints>) returns (foundEp: bool)
    ensures foundEp <==> KnownBackend(backAddr, k8sEps)
  {
    foundEp := false;
    for e := 0 to |k8sEps|
      invariant foundEp <==> KnownIn(backAddr, k8sEps, e)
    {
      var addrs := GetK8sEndpointAddresses(k8sEps[e]);
      for a := 0 to |addrs|
        invariant foundEp <==> KnownIn(backAddr, k8sEps, e) || backAddr in addrs[..a]
      {
        assert addrs[..a + 1] == addrs[..a] + [addrs[a]];
        if AddrsEqual(backAddr, addrs[a]) {
          foundEp := true;
        }
      }
      assert addrs[..|addrs|] == addrs;
      assert KnownIn(backAddr, k8sEps, e + 1) <==> KnownIn(backAddr, k8sEps, e) || backAddr in addrs;
    }
  }

  /** validateCiliumSvc. The error names the spec frontend while the matching
      uses the realized one. The found set gains the matched service's key as
      soon as IP and port match, even when a backend then fails; otherwise it is
      unchanged. */
  method ValidateCiliumSvc(cSvc: CiliumService, k8sSvcs: seq<K8sService>, k8sEps: seq<K8sEndpoints>, found: set<string>)
    returns (err: Outcome<ServiceError>, found': set<string>)
    ensures err == SvcVerdict(cSvc, k8sSvcs, k8sEps)
    ensures found' == found + KeyOf(cSvc, k8sSvcs)
  {
    found' := found;
    var svcIndex: Option<nat> := None;
    for i := 0 to |k8sSvcs|
      invariant forall j :: 0 <= j < i ==> k8sSvcs[j].clusterIP != cSvc.frontend.ip
    {
      if k8sSvcs[i].clusterIP == cSvc.frontend.ip {
        svcIndex := Some(i);
        break;
      }
    }
    assert svcIndex == FirstWithClusterIP(k8sSvcs, cSvc.frontend.ip);
    if svcIndex.None? {
      return Fail(NoServiceWithIP(cSvc.specFrontend.ip)), found';
    }
    var svc := k8sSvcs[svcIndex.value];

    var portFound := false;
    for k := 0 to |svc.ports|
      invariant forall m :: 0 <= m < k ==> svc.ports[m] != cSvc.frontend.port
      invariant found' == found
    {
      if svc.ports[k] == cSvc.frontend.port {
        portFound := true;
        found' := found' + {ServiceKey(svc)};
        break;
      }
    }
    if !portFound {
      return Fail(NoServiceWithAddress(cSvc.specFrontend.ip, cSvc.specFrontend.port)), found';
    }

    for bi := 0 to |cSvc.backends|
      invariant forall m {:trigger KnownBackend(cSvc.backends[m], k8sEps)} :: 0 <= m < bi ==> KnownBackend(cSvc.backends[m], k8sEps)
    {
      var backAddr := cSvc.backends[bi];
      var foundEp := BackendInEndpoints(backAddr, k8sEps);
      if !foundEp {
        return Fail(BackendNotInEndpoints(backAddr.ip, backAddr.port)), found';
      }
    }
    return Pass, found';
  }

  // ---------------------------------------------------------------------------
  // validateCiliumSvcLB
  // ---------------------------------------------------------------------------

  /** The backend string occurs inside one of the programmed entries (substring
      containment, so an entry may carry extra text around "IP:port"). */
  predicate Programmed(backend: string, entries: seq<string>) {
    exists e :: 0 <= e < |entries| && Contains(entries[e], backend)
  }

  predicate BackendProgrammed(b: BackendAddress, entries: seq<string>) {
    Programmed(AddressKey(b.ip, b.port), entries)
  }

  /** The position of the first realized backend that no programmed entry contains. */
  function FirstUnprogrammed(backends: seq<BackendAddress>, entries: seq<string>): (r: Option<nat>)
    ensures r.Some? ==> r.value < |backends| && !BackendProgrammed(backends[r.value], entries)
    ensures r.Some? ==> forall j {:trigger BackendProgrammed(backends[j], entries)} ::
              0 <= j < r.value ==> BackendProgrammed(backends[j], entries)
    ensures r.None? <==> forall j {:trigger BackendProgrammed(backends[j], entries)} ::
              0 <= j < |backends| ==> BackendProgrammed(backends[j], entries)
  {
    if |backends| == 0 then None
    else if !BackendProgrammed(backends[0], entries) then Some(0)
    else match FirstUnprogrammed(backends[1..], entries)
      case None => None
      case Some(k) => Some(k + 1)
  }

  /** The LB map has the realized frontend's key and every realized backend is
      programmed under it. */
  ghost predicate LBConsistent(c: CiliumService, lbMap: map<string, seq<string>>) {
    var key := AddressKey(c.frontend.ip, c.frontend.port);
    key in lbMap && forall i :: 0 <= i < |c.backends| ==> BackendProgrammed(c.backends[i], lbMap[key])
  }

  /** validateCiliumSvcLB. Fails when the frontend "IP:port" is not a key of the
      map, else names the first backend, in realized order, that no programmed
      entry contains. */
  function ValidateCiliumSvcLB(c: CiliumService, lbMap: map<string, seq<string>>): (r: Outcome<ServiceError>)
    ensures r.Pass? <==> LBConsistent(c, lbMap)
    ensures AddressKey(c.frontend.ip, c.frontend.port) !in lbMap ==>
              r == Fail(LBEntryNotFound(AddressKey(c.frontend.ip, c.frontend.port)))
    ensures AddressKey(c.frontend.ip, c.frontend.port) in lbMap && c.backends == [] ==> r == Pass
  {
    var frontendAddress := AddressKey(c.frontend.ip, c.frontend.port);
    if frontendAddress !in lbMap then Fail(LBEntryNotFound(frontendAddress))
    else match FirstUnprogrammed(c.backends, lbMap[frontendAddress])
      case None => Pass
      case Some(k) => Fail(BackendNotInLB(AddressKey(c.backends[k].ip, c.backends[k].port)))
  }

  /** validateCiliumSvcLB as the source runs it: the map lookup, then the
      labelled BACKENDS loop, which moves on to the next backend as soon as
      one programmed entry contains it and fails on the first it cannot find. */
  method CheckCiliumSvcLB(c: CiliumService, lbMap: map<string, seq<string>>) returns (err: Outcome<ServiceError>)
    ensures err == ValidateCiliumSvcLB(c, lbMap)
  {
    var frontendAddress := AddressKey(c.frontend.ip, c.frontend.port);
    if frontendAddress !in lbMap {
      return Fail(LBEntryNotFound(frontendAddress));
    }
    var bpfBackends := lbMap[frontendAddress];
    label Backends:
    for i := 0 to |c.backends|
      invariant forall j :: 0 <= j < i ==> BackendProgrammed(c.backends[j], bpfBackends)
    {
      var backend := AddressKey(c.backends[i].ip, c.backends[i].port);
      for e := 0 to |bpfBackends|
        invariant forall f :: 0 <= f < e ==> !Contains(bpfBackends[f], backend)
      {
        if Contains(bpfBackends[e], backend) {
          continue Backends;
        }
      }
      assert !BackendProgrammed(c.backends[i], bpfBackends);
      assert FirstUnprogrammed(c.backends, bpfBackends) == Some(i);
      return Fail(BackendNotInLB(backend));
    }
    return Pass;
  }

  /** With the frontend key present, a failure names the first backend, in
      realized order, that no programmed entry contains. */
  lemma ValidateCiliumSvcLBNamesFirstMissing(c: CiliumService, lbMap: map<string, seq<string>>)
    requires AddressKey(c.frontend.ip, c.frontend.port) in lbMap
    requires ValidateCiliumSvcLB(c, lbMap).Fail?
    ensures exists k :: 0 <= k < |c.backends|
              && !BackendProgrammed(c.backends[k], lbMap[AddressKey(c.frontend.ip, c.frontend.port)])
              && (forall j :: 0 <= j < k ==> BackendProgrammed(c.backends[j], lbMap[AddressKey(c.frontend.ip, c.frontend.port)]))
              && ValidateCiliumSvcLB(c, lbMap) == Fail(BackendNotInLB(AddressKey(c.backends[k].ip, c.backends[k].port)))
  {
    var k := FirstUnprogrammed(c.backends, lbMap[AddressKey(c.frontend.ip, c.frontend.port)]).value;
    assert ValidateCiliumSvcLB(c, lbMap) == Fail(BackendNotInLB(AddressKey(c.backends[k].ip, c.backends[k].port)));
  }

  // ---------------------------------------------------------------------------
  // ciliumServicePreFlightCheck
  // ---------------------------------------------------------------------------

  /** The found set after validating the first `n` realized services of `cs`
      in order, starting from an empty one. */
  function FoundKeys(cs: seq<CiliumService>, n: nat, svcs: seq<K8sService>): set<string>
    requires n <= |cs|
  {
    if n == 0 then {} else FoundKeys(cs, n - 1, svcs) + KeyOf(cs[n - 1], svcs)
  }

  lemma {:induction false} FoundKeysSound(cs: seq<CiliumService>, n: nat, svcs: seq<K8sService>, x: string)
    requires n <= |cs| && x in FoundKeys(cs, n, svcs)
    ensures exists i :: 0 <= i < n && x in KeyOf(cs[i], svcs)
  {
    if x !in KeyOf(cs[n - 1], svcs) {
      FoundKeysSound(cs, n - 1, svcs, x);
    }
  }

  lemma {:induction false} FoundKeysComplete(cs: seq<CiliumService>, n: nat, svcs: seq<K8sService>, x: string, i: int)
    requires n <= |cs| && 0 <= i < n && x in KeyOf(cs[i], svcs)
    ensures x in FoundKeys(cs, n, svcs)
  {
    if i < n - 1 {
      FoundKeysComplete(cs, n - 1, svcs, x, i);
    }
  }

  /** A key is in the found set exactly when one of the validated realized
      services was matched with the service of that key. */
  lemma FoundKeysMember(cs: seq<CiliumService>, n: nat, svcs: seq<K8sService>, x: string)
    requires n <= |cs|
    ensures x in FoundKeys(cs, n, svcs) <==> exists i :: 0 <= i < n && x in KeyOf(cs[i], svcs)
  {
    if x in FoundKeys(cs, n, svcs) {
      FoundKeysSound(cs, n, svcs, x);
    }
    if exists i :: 0 <= i < n && x in KeyOf(cs[i], svcs) {
      var i :| 0 <= i < n && x in KeyOf(cs[i], svcs);
      FoundKeysComplete(cs, n, svcs, x, i);
    }
  }

  /** The keys of the non-headless Kubernetes services missing from `found`,
      in the order of the service list. */
  function NotRealized(svcs: seq<K8sService>, found: set<string>): (r: seq<string>)
    ensures |r| <= |svcs|
  {
    if svcs == [] then []
    else
      var last := svcs[|svcs| - 1];
      NotRealized(svcs[..|svcs| - 1], found) + (if Headless(last) || ServiceKey(last) in found then [] else [ServiceKey(last)])
  }

  /** Every key in the not-found list is the key of a non-headless service
      that is missing from `found`. */
  lemma {:induction false} NotRealizedSound(svcs: seq<K8sService>, found: set<string>, x: string)
    requires x in NotRealized(svcs, found)
    ensures x !in found
    ensures exists j :: 0 <= j < |svcs| && !Headless(svcs[j]) && x == ServiceKey(svcs[j])
  {
    var init := svcs[..|svcs| - 1];
    if x in NotRealized(init, found) {
      NotRealizedSound(init, found, x);
      var j :| 0 <= j < |init| && !Headless(init[j]) && x == ServiceKey(init[j]);
      assert init[j] == svcs[j];
    }
  }

  /** The key of every non-headless service missing from `found` is in the
      not-found list. */
  lemma {:induction false} NotRealizedComplete(svcs: seq<K8sService>, found: set<string>, j: nat)
    requires j < |svcs| && !Headless(svcs[j]) && ServiceKey(svcs[j]) !in found
    ensures ServiceKey(svcs[j]) in NotRealized(svcs, found)
  {
    var init := svcs[..|svcs| - 1];
    if j < |init| {
      assert init[j] == svcs[j];
      NotRealizedComplete(init, found, j);
    }
  }

  /** The not-found list is empty exactly when every non-headless service was
      found. */
  lemma NotRealizedMember(svcs: seq<K8sService>, found: set<string>)
    ensures NotRealized(svcs, found) == [] <==>
              forall j :: 0 <= j < |svcs| && !Headless(svcs[j]) ==> ServiceKey(svcs[j]) in found
  {
    if NotRealized(svcs, found) != [] {
      NotRealizedSound(svcs, found, NotRealized(svcs, found)[0]);
    }
    forall j | 0 <= j < |svcs| && !Headless(svcs[j]) && ServiceKey(svcs[j]) !in found
      ensures NotRealized(svcs, found) != []
    {
      NotRealizedComplete(svcs, found, j);
    }
  }

  /** The validateCiliumSvc verdict of each of the leading `n` realized services. */
  ghost function SvcVerdicts(cs: seq<CiliumService>, svcs: seq<K8sService>, eps: seq<K8sEndpoints>, n: nat): (r: seq<Outcome<ServiceError>>)
    requires n <= |cs|
    ensures |r| == n
    ensures forall k :: 0 <= k < n ==> r[k] == SvcVerdict(cs[k], svcs, eps)
  {
    if n == 0 then [] else SvcVerdicts(cs, svcs, eps, n - 1) + [SvcVerdict(cs[n - 1], svcs, eps)]
  }

  /** The validateCiliumSvcLB verdict of each of the leading `n` realized services. */
  function LBVerdicts(cs: seq<CiliumService>, lbMap: map<string, seq<string>>, n: nat): (r: seq<Outcome<ServiceError>>)
    requires n <= |cs|
    ensures |r| == n
    ensures forall k :: 0 <= k < n ==> r[k] == ValidateCiliumSvcLB(cs[k], lbMap)
  {
    if n == 0 then [] else LBVerdicts(cs, lbMap, n - 1) + [ValidateCiliumSvcLB(cs[n - 1], lbMap)]
  }

  /** The per-agent verdict of ciliumServicePreFlightCheck, stage by stage:
      every realized service validated, then the unmatched Kubernetes services,
      then every LB entry, then the count of LB keys. */
  ghost function AgentVerdict(a: AgentServices, svcs: seq<K8sService>, eps: seq<K8sEndpoints>): Outcome<ServiceError> {
    var matched := SvcVerdicts(a.services, svcs, eps, |a.services|);
    match FirstFail(matched, |matched|)
    case Some(i) => Fail(OnAgent(a.agent, matched[i].error))
    case None =>
      var missing := NotRealized(svcs, FoundKeys(a.services, |a.services|, svcs));
      if |missing| > 0 then Fail(ServicesNotRealized(missing, a.agent))
      else
        var programmed := LBVerdicts(a.services, a.loadBalancers, |a.services|);
        match FirstFail(programmed, |programmed|)
        case Some(i) => Fail(OnAgent(a.agent, programmed[i].error))
        case None => if |a.services| != |a.loadBalancers| then Fail(LengthMismatch(a.agent)) else Pass
  }

  /** The verdict of each of the leading `n` agents, in the order they are read. */
  ghost function AgentVerdicts(agents: seq<AgentServices>, svcs: seq<K8sService>, eps: seq<K8sEndpoints>, n: nat): (r: seq<Outcome<ServiceError>>)
    requires n <= |agents|
    ensures |r| == n
    ensures forall k :: 0 <= k < n ==> r[k] == AgentVerdict(agents[k], svcs, eps)
  {
    if n == 0 then [] else AgentVerdicts(agents, svcs, eps, n - 1) + [AgentVerdict(agents[n - 1], svcs, eps)]
  }

  /** What ciliumServicePreFlightCheck returns: the first failing agent's error. */
  ghost function CiliumServicesVerdict(cache: ServiceCache): Outcome<ServiceError> {
    var verdicts := AgentVerdicts(cache.agents, cache.services, cache.endpoints, |cache.agents|);
    match FirstFail(verdicts, |verdicts|)
    case None => Pass
    case Some(k) => verdicts[k]
  }

  /** Some realized service of the agent is matched with Kubernetes service `s`. */
  ghost predicate Realized(s: K8sService, cs: seq<CiliumService>, svcs: seq<K8sService>) {
    exists i :: 0 <= i < |cs| && ServiceKey(s) in KeyOf(cs[i], svcs)
  }

  /** Every realized service matches a Kubernetes service by IP and port and
      has only backends some endpoint object lists. */
  ghost predicate ServicesMatched(cs: seq<CiliumService>, svcs: seq<K8sService>, eps: seq<K8sEndpoints>) {
    forall i :: 0 <= i < |cs| ==>
      MatchedService(cs[i], svcs).Some?
      && forall b :: 0 <= b < |cs[i].backends| ==> KnownBackend(cs[i].backends[b], eps)
  }

  /** Every non-headless Kubernetes service is realized. */
  ghost predicate ServicesRealized(cs: seq<CiliumService>, svcs: seq<K8sService>) {
    forall j :: 0 <= j < |svcs| && !Headless(svcs[j]) ==> Realized(svcs[j], cs, svcs)
  }

  /** Every realized service is programmed in the LB map. */
  ghost predicate ServicesProgrammed(cs: seq<CiliumService>, lbMap: map<string, seq<string>>) {
    forall i :: 0 <= i < |cs| ==> LBConsistent(cs[i], lbMap)
  }

  /** One agent agrees with the desired state and with its own dataplane, and
      its LB map has one key per realized service. */
  ghost predicate AgentConsistent(a: AgentServices, svcs: seq<K8sService>, eps: seq<K8sEndpoints>) {
    && ServicesMatched(a.services, svcs, eps)
    && ServicesRealized(a.services, svcs)
    && ServicesProgrammed(a.services, a.loadBalancers)
    && |a.services| == |a.loadBalancers|
  }

  lemma ServicesMatchedIff(cs: seq<CiliumService>, svcs: seq<K8sService>, eps: seq<K8sEndpoints>)
    ensures FirstFail(SvcVerdicts(cs, svcs, eps, |cs|), |cs|).None? <==> ServicesMatched(cs, svcs, eps)
  {
    forall i | 0 <= i < |cs| {
      SvcVerdictPass(cs[i], svcs, eps);
    }
  }

  lemma ServicesRealizedIff(cs: seq<CiliumService>, svcs: seq<K8sService>)
    ensures NotRealized(svcs, FoundKeys(cs, |cs|, svcs)) == [] <==> ServicesRealized(cs, svcs)
  {
    NotRealizedMember(svcs, FoundKeys(cs, |cs|, svcs));
    forall j | 0 <= j < |svcs|
      ensures ServiceKey(svcs[j]) in FoundKeys(cs, |cs|, svcs) <==> Realized(svcs[j], cs, svcs)
    {
      FoundKeysMember(cs, |cs|, svcs, ServiceKey(svcs[j]));
    }
  }

  lemma ServicesProgrammedIff(cs: seq<CiliumService>, lbMap: map<string, seq<string>>)
    ensures FirstFail(LBVerdicts(cs, lbMap, |cs|), |cs|).None? <==> ServicesProgrammed(cs, lbMap)
  {
    forall i | 0 <= i < |cs|
      ensures ValidateCiliumSvcLB(cs[i], lbMap).Pass? <==> LBConsistent(cs[i], lbMap)
    {
    }
  }

  /** The per-agent verdict passes exactly when the agent is consistent. */
  lemma AgentVerdictPass(a: AgentServices, svcs: seq<K8sService>, eps: seq<K8sEndpoints>)
    ensures AgentVerdict(a, svcs, eps).Pass? <==> AgentConsistent(a, svcs, eps)
  {
    ServicesMatchedIff(a.services, svcs, eps);
    ServicesRealizedIff(a.services, svcs);
    ServicesProgrammedIff(a.services, a.loadBalancers);
  }

  /** Every agent of the snapshot is consistent with it. */
  ghost predicate SnapshotConsistent(cache: ServiceCache) {
    forall k :: 0 <= k < |cache.agents| ==> AgentConsistent(cache.agents[k], cache.services, cache.endpoints)
  }

  /** The service check passes exactly when every agent is consistent. */
  lemma CiliumServicesVerdictPass(cache: ServiceCache)
    ensures CiliumServicesVerdict(cache).Pass? <==> SnapshotConsistent(cache)
  {
    forall k | 0 <= k < |cache.agents| {
      AgentVerdictPass(cache.agents[k], cache.services, cache.endpoints);
    }
  }

  /** The first stage for one agent: validateCiliumSvc on each realized service
      in order, threading the found set, until the first error. */
  method ValidateRealizedServices(services: seq<CiliumService>, svcs: seq<K8sService>, eps: seq<K8sEndpoints>)
    returns (err: Outcome<ServiceError>, k8sServicesFound: set<string>)
    ensures var verdicts := SvcVerdicts(services, svcs, eps, |services|);
      match FirstFail(verdicts, |verdicts|)
      case None => err == Pass && k8sServicesFound == FoundKeys(services, |services|, svcs)
      case Some(i) => err == verdicts[i]
  {
    ghost var verdicts := SvcVerdicts(services, svcs, eps, |services|);
    k8sServicesFound := {};
    for s := 0 to |services|
      invariant k8sServicesFound == FoundKeys(services, s, svcs)
      invariant FirstFail(verdicts, s).None?
    {
      err, k8sServicesFound := ValidateCiliumSvc(services[s], svcs, eps, k8sServicesFound);
      assert err == verdicts[s];
      if err.Fail? {
        FirstFailStable(verdicts, s + 1, |verdicts|);
        return;
      }
    }
    err := Pass;
  }

  /** The second stage: the keys of the non-headless Kubernetes services
      missing from the found set, in list order. */
  method NotFoundServices(svcs: seq<K8sService>, k8sServicesFound: set<string>) returns (notFound: seq<string>)
    ensures notFound == NotRealized(svcs, k8sServicesFound)
  {
    notFound := [];
    for k := 0 to |svcs|
      invariant notFound == NotRealized(svcs[..k], k8sServicesFound)
    {
      assert svcs[..k + 1][..k] == svcs[..k];
      var k8sSvc := svcs[k];
      var key := ServiceKey(k8sSvc);
      if Headless(k8sSvc) {
        continue;
      }
      if key !in k8sServicesFound {
        notFound := notFound + [key];
      }
    }
    assert svcs[..|svcs|] == svcs;
  }

  /** The third stage: validateCiliumSvcLB on each realized service in order,
      until the first error. */
  method ValidateLBEntries(services: seq<CiliumService>, lbMap: map<string, seq<string>>) returns (err: Outcome<ServiceError>)
    ensures var verdicts := LBVerdicts(services, lbMap, |services|);
      match FirstFail(verdicts, |verdicts|)
      case None => err == Pass
      case Some(i) => err == verdicts[i]
  {
    ghost var verdicts := LBVerdicts(services, lbMap, |services|);
    for s := 0 to |services|
      invariant FirstFail(verdicts, s).None?
    {
      err := CheckCiliumSvcLB(services[s], lbMap);
      assert err == verdicts[s];
      if err.Fail? {
        FirstFailStable(verdicts, s + 1, |verdicts|);
        return;
      }
    }
    err := Pass;
  }

  /** The body of ciliumServicePreFlightCheck's loop, for one agent. */
  method ValidateAgent(pod: AgentServices, svcs: seq<K8sService>, eps: seq<K8sEndpoints>) returns (err: Outcome<ServiceError>)
    ensures err == AgentVerdict(pod, svcs, eps)
  {
    var e, k8sServicesFound := ValidateRealizedServices(pod.services, svcs, eps);
    if e.Fail? {
      return Fail(OnAgent(pod.agent, e.error));
    }
    var notFoundServices := NotFoundServices(svcs, k8sServicesFound);
    if |notFoundServices| > 0 {
      return Fail(ServicesNotRealized(notFoundServices, pod.agent));
    }
    e := ValidateLBEntries(pod.services, pod.loadBalancers);
    if e.Fail? {
      return Fail(OnAgent(pod.agent, e.error));
    }
    if |pod.services| != |pod.loadBalancers| {
      return Fail(LengthMismatch(pod.agent));
    }
    return Pass;
  }

  /** When every earlier agent passes, the first failing agent's verdict is
      the check's verdict. */
  lemma CiliumServicesVerdictAt(cache: ServiceCache, p: nat)
    requires p < |cache.agents|
    requires forall q {:trigger AgentVerdict(cache.agents[q], cache.services, cache.endpoints)} ::
               0 <= q < p ==> AgentVerdict(cache.agents[q], cache.services, cache.endpoints).Pass?
    requires AgentVerdict(cache.agents[p], cache.services, cache.endpoints).Fail?
    ensures CiliumServicesVerdict(cache) == AgentVerdict(cache.agents[p], cache.services, cache.endpoints)
  {
    var verdicts := AgentVerdicts(cache.agents, cache.services, cache.endpoints, |cache.agents|);
    assert FirstFail(verdicts, p + 1) == Some(p);
    FirstFailStable(verdicts, p + 1, |verdicts|);
  }

  /** ciliumServicePreFlightCheck over a snapshot: the agents in order, the
      first failing one ending the check. */
  method CiliumServicePreFlightCheck(cache: ServiceCache) returns (err: Outcome<ServiceError>)
    ensures err == CiliumServicesVerdict(cache)
  {
    for p := 0 to |cache.agents|
      invariant forall q {:trigger AgentVerdict(cache.agents[q], cache.services, cache.endpoints)} ::
                  0 <= q < p ==> AgentVerdict(cache.agents[q], cache.services, cache.endpoints).Pass?
    {
      err := ValidateAgent(cache.agents[p], cache.services, cache.endpoints);
      if err.Fail? {
        CiliumServicesVerdictAt(cache, p);
        return;
      }
    }
    err := Pass;
  }
}

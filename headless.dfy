/** Headless services are invisible to the full service check: inserting one
    anywhere in the snapshot's Kubernetes services changes no agent's verdict,
    as long as no agent realizes a frontend whose IP is the literal "None". */
module HeadlessServices {
  import opened Wrappers
  import opened ServiceModel
  import opened ServiceValidation

  /** No realized service of `a` has "None" as its frontend IP. */
  predicate NoNoneFrontend(a: AgentServices) {
    forall i :: 0 <= i < |a.services| ==> a.services[i].frontend.ip != ClusterIPNone
  }

  /** `svcs` with `s` inserted at position `p`. */
  function InsertAt(svcs: seq<K8sService>, s: K8sService, p: nat): (r: seq<K8sService>)
    requires p <= |svcs|
    ensures |r| == |svcs| + 1 && r[p] == s
    ensures forall i :: 0 <= i < p ==> r[i] == svcs[i]
    ensures forall i :: p <= i < |svcs| ==> r[i + 1] == svcs[i]
  {
    svcs[..p] + [s] + svcs[p..]
  }

  /** Inserting a service with another ClusterIP anywhere does not change
      which service the first-match search finds, only where it sits. */
  lemma {:induction false} FirstWithClusterIPInsert(svcs: seq<K8sService>, s: K8sService, ip: string, p: nat)
    requires p <= |svcs| && s.clusterIP != ip
    ensures FirstWithClusterIP(InsertAt(svcs, s, p), ip).None? <==> FirstWithClusterIP(svcs, ip).None?
    ensures FirstWithClusterIP(svcs, ip).Some? ==>
              InsertAt(svcs, s, p)[FirstWithClusterIP(InsertAt(svcs, s, p), ip).value] == svcs[FirstWithClusterIP(svcs, ip).value]
  {
    var ins := InsertAt(svcs, s, p);
    if p == 0 {
      assert ins[1..] == svcs;
    } else if svcs[0].clusterIP != ip {
      assert ins[1..] == InsertAt(svcs[1..], s, p - 1);
      FirstWithClusterIPInsert(svcs[1..], s, ip, p - 1);
    }
  }

  /** A realized service is judged the same with or without a headless
      service inserted anywhere, and adds the same key to the found set. */
  lemma SvcVerdictHeadless(c: CiliumService, svcs: seq<K8sService>, s: K8sService, eps: seq<K8sEndpoints>, p: nat)
    requires p <= |svcs| && Headless(s) && c.frontend.ip != ClusterIPNone
    ensures SvcVerdict(c, InsertAt(svcs, s, p), eps) == SvcVerdict(c, svcs, eps)
    ensures KeyOf(c, InsertAt(svcs, s, p)) == KeyOf(c, svcs)
  {
    FirstWithClusterIPInsert(svcs, s, c.frontend.ip, p);
  }

  lemma {:induction false} SvcVerdictsHeadless(a: AgentServices, svcs: seq<K8sService>, s: K8sService, eps: seq<K8sEndpoints>, p: nat, n: nat)
    requires p <= |svcs| && Headless(s) && NoNoneFrontend(a) && n <= |a.services|
    ensures SvcVerdicts(a.services, InsertAt(svcs, s, p), eps, n) == SvcVerdicts(a.services, svcs, eps, n)
    ensures FoundKeys(a.services, n, InsertAt(svcs, s, p)) == FoundKeys(a.services, n, svcs)
  {
    if n > 0 {
      SvcVerdictsHeadless(a, svcs, s, eps, p, n - 1);
      SvcVerdictHeadless(a.services[n - 1], svcs, s, eps, p);
    }
  }

  /** A headless service, wherever it is inserted, is never reported as not
      realized. */
  lemma {:induction false} NotRealizedHeadless(svcs: seq<K8sService>, s: K8sService, found: set<string>, p: nat)
    requires p <= |svcs| && Headless(s)
    ensures NotRealized(InsertAt(svcs, s, p), found) == NotRealized(svcs, found)
    decreases |svcs|
  {
    var ins := InsertAt(svcs, s, p);
    if p == |svcs| {
      assert ins[..|svcs|] == svcs;
    } else {
      var init := svcs[..|svcs| - 1];
      assert ins[..|ins| - 1] == InsertAt(init, s, p);
      NotRealizedHeadless(init, s, found, p);
    }
  }

  /** An agent's verdict does not change when a headless service is inserted. */
  lemma AgentVerdictHeadless(a: AgentServices, svcs: seq<K8sService>, s: K8sService, eps: seq<K8sEndpoints>, p: nat)
    requires p <= |svcs| && Headless(s) && NoNoneFrontend(a)
    ensures AgentVerdict(a, InsertAt(svcs, s, p), eps) == AgentVerdict(a, svcs, eps)
  {
    SvcVerdictsHeadless(a, svcs, s, eps, p, |a.services|);
    NotRealizedHeadless(svcs, s, FoundKeys(a.services, |a.services|, svcs), p);
  }

  lemma {:induction false} AgentVerdictsHeadless(agents: seq<AgentServices>, svcs: seq<K8sService>, s: K8sService, eps: seq<K8sEndpoints>, p: nat, n: nat)
    requires p <= |svcs| && Headless(s) && n <= |agents|
    requires forall k :: 0 <= k < |agents| ==> NoNoneFrontend(agents[k])
    ensures AgentVerdicts(agents, InsertAt(svcs, s, p), eps, n) == AgentVerdicts(agents, svcs, eps, n)
  {
    if n > 0 {
      AgentVerdictsHeadless(agents, svcs, s, eps, p, n - 1);
      AgentVerdictHeadless(agents[n - 1], svcs, s, eps, p);
    }
  }

  /** ciliumServicePreFlightCheck gives the same verdict on a snapshot with a
      headless Kubernetes service inserted anywhere in its service list. */
  lemma CiliumServicesVerdictHeadless(cache: ServiceCache, s: K8sService, p: nat)
    requires p <= |cache.services| && Headless(s)
    requires forall k :: 0 <= k < |cache.agents| ==> NoNoneFrontend(cache.agents[k])
    ensures CiliumServicesVerdict(cache.(services := InsertAt(cache.services, s, p))) == CiliumServicesVerdict(cache)
  {
    AgentVerdictsHeadless(cache.agents, cache.services, s, cache.endpoints, p, |cache.agents|);
  }
}

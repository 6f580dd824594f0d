/** Pod readiness: the two pod predicates and one attempt of the pod-count
    wait, which re-lists the pods and decides whether enough of them pass. */
module Pods {
  import opened Wrappers

  datatype PodPhase = Pending | Running | Succeeded | Failed | Unknown

  datatype ContainerStatus = ContainerStatus(name: string, ready: bool)

  /** The fields of a listed pod that the predicates read. */
  datatype Pod = Pod(
    namespace: string,
    name: string,
    phase: PodPhase,
    deletionTimestampSet: bool,
    containerStatuses: seq<ContainerStatus>)

  /** checkRunning: the pod is scheduled and not being deleted. */
  function CheckRunning(pod: Pod): (r: bool)
    ensures r <==> pod.phase == Running && !pod.deletionTimestampSet
  {
    if pod.phase != Running || pod.deletionTimestampSet then false else true
  }

  /** The container-status loop of checkReady, returning false at the first
      container that is not ready. */
  function ContainersReady(cs: seq<ContainerStatus>): (r: bool)
    ensures r <==> forall i :: 0 <= i < |cs| ==> cs[i].ready
  {
    if cs == [] then true else cs[0].ready && ContainersReady(cs[1..])
  }

  /** checkReady: running, and every reported container ready (so a running
      pod that reports no containers is ready). */
  function CheckReady(pod: Pod): (r: bool)
    ensures r ==> CheckRunning(pod)
    ensures r <==> CheckRunning(pod) && forall i :: 0 <= i < |pod.containerStatuses| ==> pod.containerStatuses[i].ready
    ensures pod.containerStatuses == [] ==> (r <==> CheckRunning(pod))
  {
    if !CheckRunning(pod) then false else ContainersReady(pod.containerStatuses)
  }

  /** checkReady as the source runs it: the running test, then a scan of the
      container statuses that stops at the first one not ready. */
  method CheckPodReady(pod: Pod) returns (ok: bool)
    ensures ok == CheckReady(pod)
  {
    if !CheckRunning(pod) {
      return false;
    }
    for i := 0 to |pod.containerStatuses|
      invariant forall j :: 0 <= j < i ==> pod.containerStatuses[j].ready
    {
      if !pod.containerStatuses[i].ready {
        return false;
      }
    }
    return true;
  }

  /** Number of pods that pass `check`. */
  function CountPassing(check: Pod -> bool, pods: seq<Pod>): (n: nat)
    ensures n <= |pods|
    ensures n == |pods| <==> forall i :: 0 <= i < |pods| ==> check(pods[i])
  {
    if pods == [] then 0
    else
      var init := pods[..|pods| - 1];
      assert forall i :: 0 <= i < |init| ==> init[i] == pods[i];
      CountPassing(check, init) + (if check(pods[|pods| - 1]) then 1 else 0)
  }

  /** Every ready pod is running, so no more pods count as ready than as
      running: a list that satisfies the ready wait satisfies the running wait. */
  lemma {:induction false} ReadyCountAtMostRunningCount(pods: seq<Pod>)
    ensures CountPassing(CheckReady, pods) <= CountPassing(CheckRunning, pods)
  {
    if pods != [] {
      ReadyCountAtMostRunningCount(pods[..|pods| - 1]);
    }
  }

  /** One attempt of waitForNPods. A failed listing counts as "not yet". With
      minRequired == 0 the required count is the length of the list just
      fetched, so the attempt passes only when every listed pod passes;
      otherwise at least minRequired listed pods must pass. */
  method WaitForNPodsAttempt(check: Pod -> bool, podList: Result<seq<Pod>, string>, minRequired: int)
    returns (ok: bool)
    ensures podList.Failure? ==> !ok
    ensures podList.Success? && |podList.value| < minRequired ==> !ok
    ensures podList.Success? && minRequired == 0 ==>
              (ok <==> forall i :: 0 <= i < |podList.value| ==> check(podList.value[i]))
    ensures podList.Success? && minRequired != 0 ==>
              (ok <==> CountPassing(check, podList.value) >= minRequired)
  {
    if podList.Failure? {
      return false;
    }
    var pods := podList.value;
    var required := if minRequired == 0 then |pods| else minRequired;
    if |pods| < required {
      return false;
    }
    var currScheduled := 0;
    for i := 0 to |pods|
      invariant currScheduled == CountPassing(check, pods[..i])
    {
      assert pods[..i + 1][..i] == pods[..i];
      if check(pods[i]) {
        currScheduled := currScheduled + 1;
      }
    }
    assert pods[..|pods|] == pods;
    ok := currScheduled >= required;
  }
}

/** The Cilium preflight check: the stages of ciliumPreFlightCheck in their
    order, the kube-dns service check, and the state machine that keeps the
    polling loop of CiliumPreFlightCheck from printing the same failure on
    every tick. */
module Preflight {
  import opened Wrappers
  import opened ServiceModel
  import opened ServiceValidation
  import opened K8sServiceValidation

  /** The CI integration under which the connectivity-health stage is skipped. */
  const CIIntegrationFlannel: string := "flannel"

  /** A failed stage of ciliumPreFlightCheck, with the error it wraps. */
  datatype PreflightError =
    | StatusUnhealthy(cause: string)
    | ControllersFailing(cause: string)
    | HealthFailing(cause: string)
    | CacheUnavailable(cause: string)
    | ServicesNotSetUp(serviceCause: ServiceError)
    | KubernetesServiceNotReady(serviceCause: ServiceError)

  /** What the stages that run commands on the cluster report: the agents'
      status, their controllers, their connectivity health, and the service
      snapshot (or the error that prevented building it). */
  datatype Probes = Probes(
    status: Outcome<string>,
    controllers: Outcome<string>,
    health: Outcome<string>,
    cache: Result<ServiceCache, string>)

  /** What ciliumPreFlightCheck returns: the first failing stage, in the order
      status, controllers, health (not under flannel), service snapshot, all
      services, then the "kubernetes" service in "default". */
  ghost function PreflightVerdict(p: Probes, integration: string): Outcome<PreflightError> {
    if p.status.Fail? then Fail(StatusUnhealthy(p.status.error))
    else if p.controllers.Fail? then Fail(ControllersFailing(p.controllers.error))
    else if integration != CIIntegrationFlannel && p.health.Fail? then Fail(HealthFailing(p.health.error))
    else if p.cache.Failure? then Fail(CacheUnavailable(p.cache.error))
    else
      var services := CiliumServicesVerdict(p.cache.value);
      if services.Fail? then Fail(ServicesNotSetUp(services.error))
      else
        var kubernetes := ServiceVerdict(p.cache.value, "kubernetes", "default");
        if kubernetes.Fail? then Fail(KubernetesServiceNotReady(kubernetes.error)) else Pass
  }

  /** ciliumPreFlightCheck. */
  method CiliumPreflightStep(p: Probes, integration: string) returns (err: Outcome<PreflightError>)
    ensures err == PreflightVerdict(p, integration)
  {
    if p.status.Fail? {
      return Fail(StatusUnhealthy(p.status.error));
    }
    if p.controllers.Fail? {
      return Fail(ControllersFailing(p.controllers.error));
    }
    if integration != CIIntegrationFlannel {
      if p.health.Fail? {
        return Fail(HealthFailing(p.health.error));
      }
    }
    if p.cache.Failure? {
      return Fail(CacheUnavailable(p.cache.error));
    }
    var e := CiliumServicePreFlightCheck(p.cache.value);
    if e.Fail? {
      return Fail(ServicesNotSetUp(e.error));
    }
    e := ServicePreFlightCheck(p.cache.value, "kubernetes", "default");
    if e.Fail? {
      return Fail(KubernetesServiceNotReady(e.error));
    }
    return Pass;
  }

  /** The preflight check passes exactly when every probe passes (health only
      outside flannel), the snapshot was built, every agent is consistent with it and
      the "kubernetes" service is present and passes on every agent. */
  lemma PreflightVerdictPass(p: Probes, integration: string)
    ensures PreflightVerdict(p, integration).Pass? <==>
              && p.status.Pass? && p.controllers.Pass?
              && (integration == CIIntegrationFlannel || p.health.Pass?)
              && p.cache.Success?
              && SnapshotConsistent(p.cache.value)
              && ServiceVerdict(p.cache.value, "kubernetes", "default").Pass?
  {
    if p.cache.Success? {
      CiliumServicesVerdictPass(p.cache.value);
    }
  }

  /** Under flannel the health probe is never looked at. */
  lemma FlannelIgnoresHealth(p: Probes, health: Outcome<string>)
    ensures PreflightVerdict(p, CIIntegrationFlannel) == PreflightVerdict(p.(health := health), CIIntegrationFlannel)
  {
    var q := p.(health := health);
    assert q.status == p.status && q.controllers == p.controllers && q.cache == p.cache;
  }

  /** Once all services are set up, a present, non-headless "kubernetes"
      service passes its own stage too, so the preflight check never fails on it. */
  lemma KubernetesStageAfterServices(p: Probes, integration: string)
    requires p.cache.Success? && UniqueKeys(p.cache.value.services)
    requires FirstNamed(p.cache.value.services, "kubernetes", "default").Some?
    requires !Headless(p.cache.value.services[FirstNamed(p.cache.value.services, "kubernetes", "default").value])
    ensures !(PreflightVerdict(p, integration).Fail? && PreflightVerdict(p, integration).error.KubernetesServiceNotReady?)
  {
    var cache := p.cache.value;
    var v := PreflightVerdict(p, integration);
    if v.Fail? && v.error.KubernetesServiceNotReady? {
      assert CiliumServicesVerdict(cache).Pass?;
      assert ServiceVerdict(cache, "kubernetes", "default").Fail?;
      CiliumServicesPassImpliesServicePass(cache, "kubernetes", "default");
      assert false;
    }
  }

  /** The error of KubeDNSPreFlightCheck: the snapshot could not be built, or
      the "kube-dns" service check failed. Both are returned unwrapped. */
  datatype KubeDNSError = SnapshotError(cause: string) | KubeDNSServiceError(serviceCause: ServiceError)

  /** KubeDNSPreFlightCheck: build the snapshot, then check the "kube-dns"
      service in "kube-system". */
  method KubeDNSPreFlightCheck(cache: Result<ServiceCache, string>) returns (err: Outcome<KubeDNSError>)
    ensures cache.Failure? ==> err == Fail(SnapshotError(cache.error))
    ensures cache.Success? ==>
              (err.Pass? <==> ServiceVerdict(cache.value, "kube-dns", "kube-system").Pass?)
    ensures cache.Success? && err.Fail? ==>
              err.error == KubeDNSServiceError(ServiceVerdict(cache.value, "kube-dns", "kube-system").error)
  {
    if cache.Failure? {
      return Fail(SnapshotError(cache.error));
    }
    var e := ServicePreFlightCheck(cache.value, "kube-dns", "kube-system");
    if e.Fail? {
      return Fail(KubeDNSServiceError(e.error));
    }
    return Pass;
  }

  // ---------------------------------------------------------------------------
  // Failure-log deduplication of CiliumPreFlightCheck
  // ---------------------------------------------------------------------------

  /** After this many silent repeats of the same failure, it is printed again. */
  const DedupThreshold: nat := 5

  /** The two variables the polling body captures. */
  datatype LogState = LogState(lastError: string, consecutiveFailures: nat)

  /** What one tick does: a pass changes nothing and prints nothing; a failure
      is printed (and becomes the last error, with the counter reset) when it
      differs from the last error or the counter has reached the threshold,
      and otherwise only bumps the counter. */
  function Step(s: LogState, check: Outcome<string>): (r: (LogState, Option<string>))
    ensures check.Pass? ==> r == (s, None)
    ensures check.Fail? && check.error != s.lastError ==> r == (LogState(check.error, 0), Some(check.error))
    ensures r.1.Some? ==> check.Fail? && r.1.value == check.error
    ensures r.1.Some? ==> r.0 == LogState(r.1.value, 0)
    ensures r.1.None? ==> r.0.lastError == s.lastError
    ensures check.Fail? && check.error == s.lastError ==> (r.1.Some? <==> s.consecutiveFailures >= DedupThreshold)
    ensures check.Fail? && r.1.None? ==> r.0.consecutiveFailures == s.consecutiveFailures + 1
    ensures s.consecutiveFailures <= DedupThreshold ==> r.0.consecutiveFailures <= DedupThreshold
  {
    match check
    case Pass => (s, None)
    case Fail(newError) =>
      if s.lastError != newError || s.consecutiveFailures >= DedupThreshold then
        (LogState(newError, 0), Some(newError))
      else
        (LogState(s.lastError, s.consecutiveFailures + 1), None)
  }

  /** The state after `t` ticks that all fail with `msg`. */
  function AfterRepeatedFailures(s: LogState, msg: string, t: nat): LogState {
    if t == 0 then s else Step(AfterRepeatedFailures(s, msg, t - 1), Fail(msg)).0
  }

  /** From a fresh start, `t >= 1` identical failures leave `msg` as the last
      error and the counter at (t - 1) mod 6. */
  lemma {:induction false} RepeatedFailureState(msg: string, t: nat)
    requires msg != "" && t >= 1
    ensures AfterRepeatedFailures(LogState("", 0), msg, t) == LogState(msg, (t - 1) % (DedupThreshold + 1))
  {
    if t > 1 {
      RepeatedFailureState(msg, t - 1);
    }
  }

  /** From a fresh start, the same non-empty failure is printed on ticks 1, 7,
      13, ... and only on those: tick `t + 1` prints exactly when `t` is a
      multiple of 6. */
  lemma RepeatedFailurePrints(msg: string, t: nat)
    requires msg != ""
    ensures Step(AfterRepeatedFailures(LogState("", 0), msg, t), Fail(msg)).1 ==
              (if t % (DedupThreshold + 1) == 0 then Some(msg) else None)
  {
    if t >= 1 {
      RepeatedFailureState(msg, t);
    }
  }

  /** An empty failure message on the first tick is not printed: it equals the
      initial last error "" and the counter is below the threshold. */
  lemma EmptyFailureSilentAtStart()
    ensures Step(LogState("", 0), Fail("")) == (LogState("", 1), None)
  {
  }

  /** The captured variables of the polling body, updated in place tick by tick. */
  class FailureLog {
    var lastError: string
    var consecutiveFailures: nat

    function State(): LogState
      reads this
    {
      LogState(lastError, consecutiveFailures)
    }

    constructor()
      ensures State() == LogState("", 0)
    {
      lastError := "";
      consecutiveFailures := 0;
    }

    /** One run of the polling body on the outcome of ciliumPreFlightCheck:
        whether polling can stop, and the message printed, if any. */
    method Observe(check: Outcome<string>) returns (ready: bool, printed: Option<string>)
      modifies this
      ensures ready <==> check.Pass?
      ensures (State(), printed) == Step(old(State()), check)
    {
      if check.Fail? {
        var newError := check.error;
        if lastError != newError || consecutiveFailures >= DedupThreshold {
          printed := Some(newError);
          lastError := newError;
          consecutiveFailures := 0;
        } else {
          printed := None;
          consecutiveFailures := consecutiveFailures + 1;
        }
        return false, printed;
      }
      return true, None;
    }
  }
}

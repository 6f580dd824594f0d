# Cilium end-to-end test helper: decision logic

This project models the decision logic of `test/helpers/kubectl.go`, the
Kubectl helper of Cilium's end-to-end test suite, once the kubectl and SSH
transport is taken away. What is left is a set of deterministic checks over
plain records and strings:

- the pod predicates `checkRunning` and `checkReady`, and one attempt of the
  pod-count wait `waitForNPods`;
- the per-agent endpoint readiness verdict of `CiliumEndpointWaitReady`. Each
  agent reports one `state=identity` line per endpoint, and the verdicts of
  all agents are AND-ed;
- the three-way service consistency validator. It compares Kubernetes Services
  and Endpoints (desired state), each agent's realized service list, and each
  agent's BPF load-balancer map (dataplane). It covers `serviceKey`,
  `addrsEqual`, `getK8sEndpointAddresses`, `validateCiliumSvc`,
  `validateCiliumSvcLB`, `validateK8sService`, `servicePreFlightCheck` and
  `ciliumServicePreFlightCheck`;
- the stage order of `ciliumPreFlightCheck`, and `KubeDNSPreFlightCheck`;
- the failure-log deduplication of the `CiliumPreFlightCheck` polling body;
- the small string helpers:
  - splitting the pod-name output of `GetPodNamesContext`;
  - completing a kube-dns query name to a service FQDN (`WaitForKubeDNSEntry`);
  - `addIfNotOverwritten`.

The service snapshot (`serviceCache`, `ciliumPodServiceCache`) is an explicit,
immutable input value (`ServiceModel.ServiceCache`). It is not a field of the
helper. Each loop of the source is a `method` with a `for` loop, proved equal
to a specification function. This includes `checkReady`'s container scan and
`validateCiliumSvcLB`'s BACKENDS loop. The one exception is the loop of
`CiliumEndpointWaitReady` that drains the agents' results from a channel. It is
the fold `EndpointReadiness.AllReady` over the agents' verdicts, because the
channel and its arrival order are not modelled. The specification functions, such as
`ContainersReady` and `FirstUnprogrammed`, are recursive, and lemmas describe
them in the system's own terms, "agent consistent with the snapshot" for
example.

Modules:

| file | module | contents |
|---|---|---|
| `wrappers.dfy` | `Wrappers` | `Option`, `Result`, `Outcome` (pass or fail with an error), first failing position |
| `gostrings.dfy` | `GoStrings` | the parts of Go's `strings` and `strconv` the helpers use, with their laws |
| `pods.dfy` | `Pods` | pod predicates and the pod-count attempt |
| `endpoints.dfy` | `EndpointReadiness` | endpoint-line parser and the AND over agents |
| `servicemodel.dfy` | `ServiceModel` | snapshot records, `serviceKey`, `addrsEqual`, `"IP:port"` keys, `getK8sEndpointAddresses` |
| `validation.dfy` | `ServiceValidation` | `validateCiliumSvc`, `validateCiliumSvcLB`, `ciliumServicePreFlightCheck` |
| `k8sservice.dfy` | `K8sServiceValidation` | `validateK8sService`, `servicePreFlightCheck` |
| `headless.dfy` | `HeadlessServices` | headless services do not affect the full service check |
| `preflight.dfy` | `Preflight` | `ciliumPreFlightCheck` stages, `KubeDNSPreFlightCheck`, failure-log deduplication |
| `kubectlstrings.dfy` | `KubectlStrings` | pod-name split, FQDN suffixing, `addIfNotOverwritten` |

## Model

| member | source | states |
|---|---|---|
| Pods.CheckRunning | test/helpers/kubectl.go:626-631 | a pod is running iff its phase is Running and it has no deletion timestamp |
| Pods.ContainersReady | test/helpers/kubectl.go:639-643 | the container loop returns true iff every container status is ready |
| Pods.CheckReady | test/helpers/kubectl.go:634-645 | ready implies running; ready iff running and every container ready; with no container statuses, ready iff running |
| Pods.CheckPodReady | test/helpers/kubectl.go:634-645 | the running test followed by the container loop, which stops at the first container that is not ready, returns the verdict above |
| Pods.CountPassing | test/helpers/kubectl.go:697-702 | the passing count is at most the list length, and equals it iff every pod passes |
| Pods.ReadyCountAtMostRunningCount | test/helpers/kubectl.go:626-645 | no more pods count as ready than as running |
| Pods.WaitForNPodsAttempt | test/helpers/kubectl.go:672-705 | a failed listing, or fewer pods than required, gives false; with minRequired 0, true iff every listed pod passes; otherwise true iff at least minRequired pods pass |
| EndpointReadiness.WellFormedLine | test/helpers/kubectl.go:1215-1219 | a line splits on '=' into two fields iff it holds exactly one '=' |
| EndpointReadiness.InvalidCountZero | test/helpers/kubectl.go:1205-1237 | the invalid counter ends at zero iff every line is empty or has state "ready" and an identity other than 5 |
| EndpointReadiness.AgentEndpointsReady | test/helpers/kubectl.go:1193-1237 | an agent is ready iff the listing succeeded and every non-empty line is well formed, "ready" and not identity 5; when every non-empty line is well formed, the total and invalid counters equal the counts over all lines (after a malformed line the method returns at once, and the counters are not stated) |
| EndpointReadiness.AllReady | test/helpers/kubectl.go:1247-1252 | the aggregate is true iff every agent's verdict is true |
| EndpointReadiness.AllReadyOrderIndependent | test/helpers/kubectl.go:1240-1252 | the aggregate does not depend on the order in which agents report |
| EndpointReadiness.EndpointsRound | test/helpers/kubectl.go:1190-1253 | a round is ready iff every agent's listing succeeded and its endpoints are ready |
| ServiceModel.ServiceKeyParts | test/helpers/kubectl.go:2367-2369 | the key of a service is its namespace, a '/', then its name, and nothing else |
| ServiceModel.Headless | test/helpers/kubectl.go:2305-2306 | a service is headless iff it has type ClusterIP and ClusterIP "None"; the contract keeps the consequence that its ClusterIP is "None" |
| ServiceModel.KeySlash | test/helpers/kubectl.go:2367-2369 | in "namespace/name" with a namespace free of '/', the first '/' follows the namespace |
| ServiceModel.ServiceKeyInjective | test/helpers/kubectl.go:2367-2369 | with '/'-free namespaces, equal service keys mean equal namespace and name |
| ServiceModel.AddrsEqual | test/helpers/kubectl.go:2451-2453 | two backend addresses are equal iff IP and port are equal |
| ServiceModel.ToUint16 | test/helpers/kubectl.go:2441-2444 | the int32-to-uint16 conversion keeps in-range ports and is congruent modulo 65536 |
| ServiceModel.AddressKeyParts | test/helpers/kubectl.go:2415-2423 | an "IP:port" key (frontend key and backend string alike) is the IP, a ':', then decimal digits that read back as the port |
| ServiceModel.AddressKeyInjective | test/helpers/kubectl.go:2415 | the "IP:port" key identifies both the IP and the port |
| ServiceModel.PortAddresses | test/helpers/kubectl.go:2440-2446 | one address per port, in port order |
| ServiceModel.EndpointAddressesLength | test/helpers/kubectl.go:2434-2449 | the result has the sum over subsets of addresses times ports entries |
| ServiceModel.EndpointAddressesMember | test/helpers/kubectl.go:2434-2449 | an address is in the result iff some subset pairs that IP with a port that converts to it |
| ServiceModel.GetK8sEndpointAddresses | test/helpers/kubectl.go:2434-2449 | the nested append loops build the cross product in subset, address, port order |
| ServiceValidation.FirstWithClusterIP | test/helpers/kubectl.go:2374-2379 | the position of the first Kubernetes service with the given ClusterIP, or none when no service has it |
| ServiceValidation.MatchedService | test/helpers/kubectl.go:2374-2391 | a matched service has the realized frontend's IP and port |
| ServiceValidation.MatchedServiceIsFirst | test/helpers/kubectl.go:2374-2392 | the match is the first service with the frontend IP; there is no match iff no service has that IP or the first one lacks the frontend port, so a later service with the same IP is never used |
| ServiceValidation.SvcVerdictPass | test/helpers/kubectl.go:2372-2412 | validateCiliumSvc passes iff the service is matched by IP and port and every backend is listed by some endpoint object |
| ServiceValidation.SvcVerdictNamesFirstUnknownBackend | test/helpers/kubectl.go:2396-2410 | after a match, the error names the first backend that no endpoint object lists |
| ServiceValidation.SvcVerdictUnmatched | test/helpers/kubectl.go:2380-2395 | an unmatched IP or port is reported with the spec frontend |
| ServiceValidation.BackendInEndpoints | test/helpers/kubectl.go:2397-2405 | the scan finds a backend iff some endpoint object in the whole list contains it |
| ServiceValidation.ValidateCiliumSvc | test/helpers/kubectl.go:2372-2412 | returns the verdict of validateCiliumSvc; the found set gains the matched service's key once IP and port match, even when a backend then fails, and nothing else |
| ServiceValidation.FirstUnprogrammed | test/helpers/kubectl.go:2421-2430 | the position of the first backend that no programmed entry contains, or none when all are programmed |
| ServiceValidation.ValidateCiliumSvcLB | test/helpers/kubectl.go:2414-2432 | passes iff the frontend key is in the map and every backend is programmed under it; a missing key names the key; a present key with no backends passes |
| ServiceValidation.CheckCiliumSvcLB | test/helpers/kubectl.go:2414-2432 | the map lookup and the labelled BACKENDS loop, which moves on at the first entry containing a backend, return the verdict above |
| ServiceValidation.ValidateCiliumSvcLBNamesFirstMissing | test/helpers/kubectl.go:2421-2430 | with the key present, the error names the first backend that no entry contains |
| ServiceValidation.FoundKeysMember | test/helpers/kubectl.go:2292-2299 | a key is in the found set iff some validated realized service was matched with that key's service |
| ServiceValidation.NotRealizedSound | test/helpers/kubectl.go:2301-2311 | every listed key belongs to a non-headless service and is not in the found set |
| ServiceValidation.NotRealizedComplete | test/helpers/kubectl.go:2301-2311 | every non-headless service missing from the found set is listed |
| ServiceValidation.NotRealizedMember | test/helpers/kubectl.go:2301-2316 | the list is empty iff every non-headless service was found |
| ServiceValidation.ServicesMatchedIff | test/helpers/kubectl.go:2294-2299 | the first stage passes iff every realized service is matched and has only known backends |
| ServiceValidation.ServicesRealizedIff | test/helpers/kubectl.go:2301-2316 | the second stage passes iff every non-headless service is realized on the agent |
| ServiceValidation.ServicesProgrammedIff | test/helpers/kubectl.go:2319-2324 | the third stage passes iff every realized service is programmed in the LB map |
| ServiceValidation.AgentVerdictPass | test/helpers/kubectl.go:2291-2327 | an agent passes iff it is consistent: matched, realized, programmed, and as many LB keys as services |
| ServiceValidation.CiliumServicesVerdictPass | test/helpers/kubectl.go:2289-2330 | the service check passes iff every agent is consistent with the snapshot |
| ServiceValidation.ValidateRealizedServices | test/helpers/kubectl.go:2292-2299 | returns the first failing service's error, or passes with the found set of all realized services |
| ServiceValidation.NotFoundServices | test/helpers/kubectl.go:2301-2311 | builds the keys of the non-headless services missing from the found set, in list order |
| ServiceValidation.ValidateLBEntries | test/helpers/kubectl.go:2319-2324 | returns the first failing LB check's error, or passes |
| ServiceValidation.ValidateAgent | test/helpers/kubectl.go:2291-2327 | the loop body for one agent returns that agent's verdict, stage by stage |
| ServiceValidation.CiliumServicesVerdictAt | test/helpers/kubectl.go:2290-2297 | when all earlier agents pass, the first failing agent's error is the check's error |
| ServiceValidation.CiliumServicePreFlightCheck | test/helpers/kubectl.go:2289-2330 | returns the error of the first failing agent, or passes |
| HeadlessServices.FirstWithClusterIPInsert | test/helpers/kubectl.go:2374-2379 | a service with another ClusterIP inserted at any position does not change which service the first match finds |
| HeadlessServices.SvcVerdictHeadless | test/helpers/kubectl.go:2372-2412 | a headless service inserted at any position changes neither the verdict nor the found-set entry of a realized service whose frontend IP is not "None" |
| HeadlessServices.NotRealizedHeadless | test/helpers/kubectl.go:2304-2308 | a headless service inserted at any position is never reported as not found |
| HeadlessServices.AgentVerdictHeadless | test/helpers/kubectl.go:2291-2327 | inserting a headless service at any position leaves an agent's verdict unchanged, when none of its realized frontends has IP "None" |
| HeadlessServices.CiliumServicesVerdictHeadless | test/helpers/kubectl.go:2289-2330 | inserting a headless service at any position leaves the full service check unchanged, when no agent realizes a frontend with IP "None" |
| K8sServiceValidation.FirstRealizing | test/helpers/kubectl.go:2264-2275 | the position of the first realized service with the service's ClusterIP and one of its ports, or none |
| K8sServiceValidation.SvcVerdictAgainstRealized | test/helpers/kubectl.go:2281-2285 | checked against the service alone, a realizing service always matches, so only a backend can fail |
| K8sServiceValidation.K8sServiceVerdictErrors | test/helpers/kubectl.go:2262-2286 | validateK8sService fails only with a missing realizing service, an unknown backend or an LB error |
| K8sServiceValidation.K8sServiceVerdictPass | test/helpers/kubectl.go:2262-2286 | passes iff a realizing service exists and the first one has every backend known and programmed |
| K8sServiceValidation.ValidateK8sService | test/helpers/kubectl.go:2262-2286 | the labelled search, then validateCiliumSvc with a throw-away found set, then the LB check, give the verdict above |
| K8sServiceValidation.FirstNamed | test/helpers/kubectl.go:2241-2246 | the position of the first service with the given name and namespace, or none |
| K8sServiceValidation.FindService | test/helpers/kubectl.go:2240-2246 | the lookup loop finds that first service |
| K8sServiceValidation.ServiceVerdictPass | test/helpers/kubectl.go:2238-2260 | servicePreFlightCheck passes iff the service is in the snapshot and validateK8sService passes on every agent |
| K8sServiceValidation.ServicePreFlightCheck | test/helpers/kubectl.go:2238-2260 | a missing service is reported; otherwise the first failing agent is reported with its error |
| K8sServiceValidation.ValidateOnAgents | test/helpers/kubectl.go:2252-2259 | the agent loop returns the first agent's validateK8sService error, wrapped with that agent, or passes |
| K8sServiceValidation.ConsistentAgentPassesK8sService | test/helpers/kubectl.go:2262-2330 | on a consistent agent, every non-headless service with a unique key passes validateK8sService |
| K8sServiceValidation.CiliumServicesPassImpliesServicePass | test/helpers/kubectl.go:2238-2330 | a snapshot that passes ciliumServicePreFlightCheck passes servicePreFlightCheck for any non-headless service it holds, when no two services share a "namespace/name" key |
| Preflight.CiliumPreflightStep | test/helpers/kubectl.go:1985-2018 | the stages run in order and the first failing one is reported, wrapped by stage |
| Preflight.PreflightVerdictPass | test/helpers/kubectl.go:1985-2018 | the preflight passes iff every probe passes (health only outside flannel), the snapshot is built and consistent, and the "kubernetes" service passes |
| Preflight.FlannelIgnoresHealth | test/helpers/kubectl.go:1996-2003 | under flannel the health probe's outcome does not matter |
| Preflight.KubernetesStageAfterServices | test/helpers/kubectl.go:2008-2015 | once all services pass, a present non-headless "kubernetes" service never fails its own stage, when no two services share a "namespace/name" key |
| Preflight.KubeDNSPreFlightCheck | test/helpers/kubectl.go:2228-2234 | a snapshot error is returned as is; otherwise the "kube-dns" service check decides |
| Preflight.Step | test/helpers/kubectl.go:2032-2045 | a pass changes nothing; a new failure is printed and resets the counter; a repeated failure is printed iff the counter has reached 5; a silent tick keeps the last error and adds one to the counter; a printed message is the failure's own message, and it becomes the last error with the counter at 0; the counter stays at most 5 |
| Preflight.RepeatedFailureState | test/helpers/kubectl.go:2032-2045 | after t >= 1 identical non-empty failures from a fresh start, the last error is that message and the counter is (t - 1) mod 6 |
| Preflight.RepeatedFailurePrints | test/helpers/kubectl.go:2032-2045 | an identical non-empty failure is printed on ticks 1, 7, 13, ... and only on those |
| Preflight.EmptyFailureSilentAtStart | test/helpers/kubectl.go:2028-2041 | an empty failure message on the first tick is not printed, since it equals the initial last error "" |
| Preflight.FailureLog.constructor | test/helpers/kubectl.go:2027-2030 | the captured variables start empty and at zero |
| Preflight.FailureLog.Observe | test/helpers/kubectl.go:2032-2045 | polling stops iff the check passed; the new state and the printed message are one step of the state machine |
| KubectlStrings.PodNamesFromOutput | test/helpers/kubectl.go:372-377 | no names iff the output is empty after trimming newlines; names hold no space and join back to the trimmed output |
| KubectlStrings.PodNamesRoundTrip | test/helpers/kubectl.go:372-377 | space-joined names without spaces or newlines, padded with newlines, are read back unchanged |
| KubectlStrings.WithSvcSuffix | test/helpers/kubectl.go:813-815 | a name that already ends with the service domain is kept; any other name becomes name + "." + the service domain |
| KubectlStrings.KubeDNSName | test/helpers/kubectl.go:812-815 | the query name is "name.namespace" completed by WithSvcSuffix, so it is "name.namespace.svc.cluster.local" unless "name.namespace" already ends with the service domain |
| KubectlStrings.WithSvcSuffixIdempotent | test/helpers/kubectl.go:813-815 | completing a name twice is the same as once |
| KubectlStrings.WithDefault | test/helpers/kubectl.go:1030-1039 | the caller's options are kept in front and at most one option is added; nothing is added iff some option already sets the field; the added option is "--set field=value"; afterwards the field counts as set |
| KubectlStrings.AddIfNotOverwritten | test/helpers/kubectl.go:1030-1039 | the scan-and-append loop returns the option list described above |
| KubectlStrings.WithDefaultIdempotent | test/helpers/kubectl.go:1030-1039 | a second default for the same field, whatever its value, changes nothing |
| KubectlStrings.LongerFieldCountsAsSet | test/helpers/kubectl.go:1031-1034 | an option for a longer field that starts with the field also blocks the default |

## Left out

- Command execution is not modelled: kubectl and SSH commands, JSON and jsonpath unmarshalling, installation and patching. Their results enter as parameters: pod lists, endpoint listings, probe outcomes and the snapshot.
- `fillServiceCache` is not modelled. The snapshot is an input value, and a failure to build it is a `Result` failure carrying its message.
- `WithTimeout` and `WithContext` polling are not modelled: timing, deadlines, sleeps and the final timeout message. One attempt, or one tick of the polling body, is modelled instead.
- Goroutines, the wait group and the channel of `CiliumEndpointWaitReady` are not modelled. The agents' verdicts are computed one after the other, and `AllReadyOrderIndependent` shows that the AND does not depend on the order in which they arrive.
- The status, controllers and connectivity-health stages of `ciliumPreFlightCheck` (`ciliumStatusPreFlightCheck`, `ciliumControllersPreFlightCheck`, `ciliumHealthPreFlightCheck`) are not modelled: they run commands and parse their output, and the status stage also matches a regular expression. Only their outcomes enter, as parameters.
- Reports, logs and the printed messages are not modelled beyond the message the deduplication prints. Errors are structured datatypes, not formatted strings. Each distinct message of the source is one constructor.
- `generateCiliumYaml` is not modelled: it iterates a Go map in nondeterministic order and then runs helm. Only `addIfNotOverwritten` is kept.
- `GetCurrentIntegration` is not modelled: it reads the environment, so the CI integration name is a parameter.
- pkg/aws/eni/metrics/mock/mock.go and pkg/datapath/linux/config_test.go are not part of this model.
- Preflight.RepeatedFailurePrints: an identical failure is printed again only after five silent repeats, so on ticks 1, 7, 13, ... and not on tick 6. The counter test `>= 5` runs before the increment; the model follows the code.
- ServiceValidation.ValidateCiliumSvcLB: a missing LB entry reports only the frontend key, as the code does.
- ServiceModel.AddressKey: `strconv.Itoa` is modelled on the non-negative ports a `uint16` can hold.
- HeadlessServices.CiliumServicesVerdictHeadless: stated only when no agent realizes a frontend whose IP is the literal "None". Such a frontend would match the headless service by its ClusterIP, so the verdict can then change.
- HeadlessServices.AgentVerdictHeadless: stated only when none of the agent's realized frontends has the IP "None", for the same reason.
- Preflight.RepeatedFailureState: stated for non-empty messages. Every error of ciliumPreFlightCheck starts with a fixed stage prefix, so real messages are never empty.
- Preflight.RepeatedFailurePrints: stated for non-empty messages, as above. An empty message would stay silent on the first tick, as Preflight.EmptyFailureSilentAtStart shows.
- K8sServiceValidation.CiliumServicesPassImpliesServicePass: needs unique "namespace/name" keys, like ConsistentAgentPassesK8sService.
- Preflight.KubernetesStageAfterServices: needs unique "namespace/name" keys, like ConsistentAgentPassesK8sService.
- Address IPs are taken as present. The source dereferences the `IP` pointers of realized backend addresses, and panics when one is nil: `*backAddr.IP` (test/helpers/kubectl.go:2408), `*addr.IP` (2423) and `*addr1.IP == *addr2.IP` (2452). The model's address records always hold a string, so this panic path is not modelled.
- The agent-level errors `OnAgent`, `ServicesNotRealized` and `LengthMismatch` carry only the agent's name (`AgentHandle`). The source formats the whole `ciliumPodServiceCache` entry with `%v`, so its messages also show the agent's realized services and its LB map (test/helpers/kubectl.go:2256, 2297, 2315-2316, 2322, 2326).
- K8sServiceValidation.ConsistentAgentPassesK8sService: needs unique "namespace/name" keys, which Kubernetes guarantees but the helper does not check.

/** The service snapshot the consistency validator reads: Kubernetes services
    and endpoints (desired state), each agent's realized service list, and each
    agent's BPF load-balancer map (dataplane). Only the fields the validator
    consumes are kept. */
module ServiceModel {
  import opened GoStrings
  import opened Wrappers

  /** Kubernetes ports are int32; agent ports are uint16. */
  type Int32 = x: int | -0x8000_0000 <= x < 0x8000_0000
  type Uint16 = x: int | 0 <= x < 0x1_0000

  datatype ServiceType = ClusterIP | NodePort | LoadBalancer | ExternalName

  /** The ClusterIP of a headless service. */
  const ClusterIPNone: string := "None"

  /** A Kubernetes Service: its identity, type, ClusterIP and the ports of its spec. */
  datatype K8sService = K8sService(
    namespace: string,
    name: string,
    serviceType: ServiceType,
    clusterIP: string,
    ports: seq<Int32>)

  /** One subset of a Kubernetes Endpoints object: every address serves every port. */
  datatype EndpointSubset = EndpointSubset(addresses: seq<string>, ports: seq<Int32>)

  datatype K8sEndpoints = K8sEndpoints(namespace: string, name: string, subsets: seq<EndpointSubset>)

  datatype BackendAddress = BackendAddress(ip: string, port: Uint16)

  datatype FrontendAddress = FrontendAddress(ip: string, port: Uint16)

  /** An agent's service: the frontend of its spec, and the realized frontend
      and backends from its status. */
  datatype CiliumService = CiliumService(
    specFrontend: FrontendAddress,
    frontend: FrontendAddress,
    backends: seq<BackendAddress>)

  /** Identity of an agent pod, carried unchanged through every stage. */
  datatype AgentHandle = AgentHandle(podName: string)

  /** What one agent reports: its realized services and its BPF LB map from
      frontend "IP:port" to programmed backend strings. */
  datatype AgentServices = AgentServices(
    agent: AgentHandle,
    services: seq<CiliumService>,
    loadBalancers: map<string, seq<string>>)

  /** The whole snapshot, built once and then only read. */
  datatype ServiceCache = ServiceCache(
    services: seq<K8sService>,
    endpoints: seq<K8sEndpoints>,
    agents: seq<AgentServices>)

  /** A headless service: type ClusterIP with ClusterIP "None". It has no
      cluster IP, so only a frontend with the literal IP "None" could match it. */
  predicate Headless(s: K8sService)
    ensures Headless(s) ==> s.clusterIP == ClusterIPNone
  {
    s.serviceType == ClusterIP && s.clusterIP == ClusterIPNone
  }

  /** serviceKey: "namespace/name". */
  function ServiceKey(s: K8sService): string {
    s.namespace + "/" + s.name
  }

  /** The key splits after the namespace into the namespace, a '/', and the name. */
  lemma ServiceKeyParts(s: K8sService)
    ensures var r := ServiceKey(s);
      && |r| == |s.namespace| + 1 + |s.name|
      && r[..|s.namespace|] == s.namespace && r[|s.namespace|] == '/' && r[|s.namespace| + 1..] == s.name
  {
  }

  /** In "namespace/name" with a namespace free of '/', the first '/' sits
      right after the namespace. */
  lemma KeySlash(ns: string, name: string)
    requires '/' !in ns
    ensures (ns + "/" + name)[|ns|] == '/'
    ensures forall i :: 0 <= i < |ns| ==> (ns + "/" + name)[i] != '/'
  {
    assert forall i :: 0 <= i < |ns| ==> (ns + "/" + name)[i] == ns[i];
  }

  /** Namespaces never contain '/', so the key identifies the service. */
  lemma ServiceKeyInjective(a: K8sService, b: K8sService)
    requires '/' !in a.namespace && '/' !in b.namespace
    requires ServiceKey(a) == ServiceKey(b)
    ensures a.namespace == b.namespace && a.name == b.name
  {
    var k := ServiceKey(a);
    KeySlash(a.namespace, a.name);
    KeySlash(b.namespace, b.name);
    assert |a.namespace| == |b.namespace|;
    assert a.namespace == k[..|a.namespace|] == b.namespace;
    assert a.name == k[|a.namespace| + 1..] == b.name;
  }

  /** addrsEqual: same IP and same port, which for these records is equality. */
  function AddrsEqual(a: BackendAddress, b: BackendAddress): (r: bool)
    ensures r <==> a == b
  {
    a.ip == b.ip && a.port == b.port
  }

  /** Go's uint16(int32) conversion: keeps the low 16 bits. */
  function ToUint16(p: Int32): (r: Uint16)
    ensures 0 <= p < 0x1_0000 ==> r == p
    ensures (r - p) % 0x1_0000 == 0
  {
    p % 0x1_0000
  }

  /** "IP:port" with the port in decimal: the key of the BPF LB map and the
      form in which backends are programmed. */
  function AddressKey(ip: string, port: Uint16): string {
    ip + ":" + Itoa(port)
  }

  /** The key is the IP, a ':', and decimal digits that read back as the port. */
  lemma AddressKeyParts(ip: string, port: Uint16)
    ensures var r := AddressKey(ip, port);
      && |r| >= |ip| + 2 && r[..|ip|] == ip && r[|ip|] == ':'
      && (forall i :: |ip| < i < |r| ==> IsDigit(r[i]))
      && DecimalValue(r[|ip| + 1..]) == port
  {
    var r := AddressKey(ip, port);
    assert r[|ip| + 1..] == Itoa(port);
    DecimalValueItoa(port);
  }

  /** In "IP:port" the port digits follow the last ':'. */
  lemma KeyColon(ip: string, digits: string)
    requires forall i :: 0 <= i < |digits| ==> IsDigit(digits[i])
    ensures (ip + ":" + digits)[|ip|] == ':'
    ensures forall i :: |ip| < i < |ip| + 1 + |digits| ==> (ip + ":" + digits)[i] != ':'
  {
    assert forall i :: |ip| < i < |ip| + 1 + |digits| ==> (ip + ":" + digits)[i] == digits[i - |ip| - 1];
  }

  /** The port is written in digits, which contain no ':', so the last ':'
      separates IP and port and the key identifies both (IPv6 IPs included). */
  lemma AddressKeyInjective(ip1: string, port1: Uint16, ip2: string, port2: Uint16)
    requires AddressKey(ip1, port1) == AddressKey(ip2, port2)
    ensures ip1 == ip2 && port1 == port2
  {
    var s := AddressKey(ip1, port1);
    var d1, d2 := Itoa(port1), Itoa(port2);
    KeyColon(ip1, d1);
    KeyColon(ip2, d2);
    assert |ip1| == |ip2|;
    assert d1 == s[|ip1| + 1..] == d2;
    assert ip1 == s[..|ip1|] == ip2;
    ItoaInjective(port1, port2);
  }

  /** The addresses one endpoint IP contributes: one per port, in port order. */
  function PortAddresses(ip: string, ports: seq<Int32>): (r: seq<BackendAddress>)
    ensures |r| == |ports|
  {
    if ports == [] then []
    else PortAddresses(ip, ports[..|ports| - 1]) + [BackendAddress(ip, ToUint16(ports[|ports| - 1]))]
  }

  /** The addresses of one subset: address-major, port-minor. */
  function SubsetAddresses(addresses: seq<string>, ports: seq<Int32>): seq<BackendAddress>
  {
    if addresses == [] then []
    else SubsetAddresses(addresses[..|addresses| - 1], ports) + PortAddresses(addresses[|addresses| - 1], ports)
  }

  /** The backend addresses of an Endpoints object, subset by subset. */
  function EndpointAddresses(subsets: seq<EndpointSubset>): seq<BackendAddress>
  {
    if subsets == [] then []
    else EndpointAddresses(subsets[..|subsets| - 1])
         + SubsetAddresses(subsets[|subsets| - 1].addresses, subsets[|subsets| - 1].ports)
  }

  /** Position j * |ports| + k of a subset's addresses holds address j with port k. */
  lemma {:induction false} SubsetAddressesAt(addresses: seq<string>, ports: seq<Int32>, j: nat, k: nat)
    requires j < |addresses| && k < |ports|
    ensures j * |ports| + k < |SubsetAddresses(addresses, ports)|
    ensures SubsetAddresses(addresses, ports)[j * |ports| + k] == BackendAddress(addresses[j], ToUint16(ports[k]))
  {
    var n, p := |addresses|, |ports|;
    var init := addresses[..n - 1];
    var front, back := SubsetAddresses(init, ports), PortAddresses(addresses[n - 1], ports);
    assert SubsetAddresses(addresses, ports) == front + back;
    SubsetAddressesLength(init, ports);
    if j < n - 1 {
      SubsetAddressesAt(init, ports, j, k);
      assert init[j] == addresses[j];
    } else {
      assert j * p == (n - 1) * p;
      PortAddressesAt(addresses[n - 1], ports, k);
    }
  }

  lemma {:induction false} SubsetAddressesLength(addresses: seq<string>, ports: seq<Int32>)
    ensures |SubsetAddresses(addresses, ports)| == |addresses| * |ports|
  {
    if addresses != [] {
      var n := |addresses|;
      SubsetAddressesLength(addresses[..n - 1], ports);
      assert (n - 1) * |ports| + |ports| == n * |ports|;
    }
  }

  /** Σ over subsets of |addresses| · |ports|. */
  function PairCount(subsets: seq<EndpointSubset>): nat {
    if subsets == [] then 0
    else PairCount(subsets[..|subsets| - 1]) + |subsets[|subsets| - 1].addresses| * |subsets[|subsets| - 1].ports|
  }

  lemma {:induction false} EndpointAddressesLength(subsets: seq<EndpointSubset>)
    ensures |EndpointAddresses(subsets)| == PairCount(subsets)
  {
    if subsets != [] {
      var last := subsets[|subsets| - 1];
      EndpointAddressesLength(subsets[..|subsets| - 1]);
      SubsetAddressesLength(last.addresses, last.ports);
    }
  }

  lemma {:induction false} PortAddressesAt(ip: string, ports: seq<Int32>, k: nat)
    requires k < |ports|
    ensures PortAddresses(ip, ports)[k] == BackendAddress(ip, ToUint16(ports[k]))
  {
    var n := |ports|;
    if k < n - 1 {
      PortAddressesAt(ip, ports[..n - 1], k);
    }
  }

  /** Address `a` is `ip` served on port k. */
  ghost predicate PortPair(ip: string, ports: seq<Int32>, k: int, a: BackendAddress) {
    0 <= k < |ports| && a == BackendAddress(ip, ToUint16(ports[k]))
  }

  /** Address `a` is address j of a subset served on port k of that subset. */
  ghost predicate SubsetPair(addresses: seq<string>, ports: seq<Int32>, j: int, k: int, a: BackendAddress) {
    0 <= j < |addresses| && PortPair(addresses[j], ports, k, a)
  }

  /** Address `a` is address j of subset i served on port k of subset i. */
  ghost predicate Produces(subsets: seq<EndpointSubset>, i: int, j: int, k: int, a: BackendAddress) {
    0 <= i < |subsets| && SubsetPair(subsets[i].addresses, subsets[i].ports, j, k, a)
  }

  lemma PortAddressesMember(ip: string, ports: seq<Int32>, a: BackendAddress)
    ensures a in PortAddresses(ip, ports) <==> exists k :: PortPair(ip, ports, k, a)
  {
    var r := PortAddresses(ip, ports);
    if a in r {
      var m :| 0 <= m < |r| && r[m] == a;
      PortAddressesAt(ip, ports, m);
      assert PortPair(ip, ports, m, a);
    }
    if exists k :: PortPair(ip, ports, k, a) {
      var k :| PortPair(ip, ports, k, a);
      PortAddressesAt(ip, ports, k);
      assert r[k] == a;
    }
  }

  lemma {:induction false} SubsetAddressesSound(addresses: seq<string>, ports: seq<Int32>, a: BackendAddress)
    requires a in SubsetAddresses(addresses, ports)
    ensures exists j, k :: SubsetPair(addresses, ports, j, k, a)
  {
    var n := |addresses|;
    var init, last := addresses[..n - 1], addresses[n - 1];
    assert SubsetAddresses(addresses, ports) == SubsetAddresses(init, ports) + PortAddresses(last, ports);
    if a in SubsetAddresses(init, ports) {
      SubsetAddressesSound(init, ports, a);
      var j, k :| SubsetPair(init, ports, j, k, a);
      assert SubsetPair(addresses, ports, j, k, a);
    } else {
      PortAddressesMember(last, ports, a);
      var k :| PortPair(last, ports, k, a);
      assert SubsetPair(addresses, ports, n - 1, k, a);
    }
  }

  lemma {:induction false} SubsetAddressesComplete(addresses: seq<string>, ports: seq<Int32>, a: BackendAddress, j: int, k: int)
    requires SubsetPair(addresses, ports, j, k, a)
    ensures a in SubsetAddresses(addresses, ports)
  {
    var n := |addresses|;
    var init, last := addresses[..n - 1], addresses[n - 1];
    assert SubsetAddresses(addresses, ports) == SubsetAddresses(init, ports) + PortAddresses(last, ports);
    if j < n - 1 {
      assert SubsetPair(init, ports, j, k, a);
      SubsetAddressesComplete(init, ports, a, j, k);
    } else {
      PortAddressesMember(last, ports, a);
      assert PortPair(last, ports, k, a);
    }
  }

  lemma SubsetAddressesMember(addresses: seq<string>, ports: seq<Int32>, a: BackendAddress)
    ensures a in SubsetAddresses(addresses, ports) <==> exists j, k :: SubsetPair(addresses, ports, j, k, a)
  {
    if a in SubsetAddresses(addresses, ports) {
      SubsetAddressesSound(addresses, ports, a);
    }
    if exists j, k :: SubsetPair(addresses, ports, j, k, a) {
      var j, k :| SubsetPair(addresses, ports, j, k, a);
      SubsetAddressesComplete(addresses, ports, a, j, k);
    }
  }

  lemma {:induction false} EndpointAddressesSound(subsets: seq<EndpointSubset>, a: BackendAddress)
    requires a in EndpointAddresses(subsets)
    ensures exists i, j, k :: Produces(subsets, i, j, k, a)
  {
    var n := |subsets|;
    var init, last := subsets[..n - 1], subsets[n - 1];
    assert EndpointAddresses(subsets) == EndpointAddresses(init) + SubsetAddresses(last.addresses, last.ports);
    if a in EndpointAddresses(init) {
      EndpointAddressesSound(init, a);
      var i, j, k :| Produces(init, i, j, k, a);
      assert init[i] == subsets[i];
      assert Produces(subsets, i, j, k, a);
    } else {
      SubsetAddressesMember(last.addresses, last.ports, a);
      var j, k :| SubsetPair(last.addresses, last.ports, j, k, a);
      assert Produces(subsets, n - 1, j, k, a);
    }
  }

  lemma {:induction false} EndpointAddressesComplete(subsets: seq<EndpointSubset>, a: BackendAddress, i: int, j: int, k: int)
    requires Produces(subsets, i, j, k, a)
    ensures a in EndpointAddresses(subsets)
  {
    var n := |subsets|;
    var init, last := subsets[..n - 1], subsets[n - 1];
    assert EndpointAddresses(subsets) == EndpointAddresses(init) + SubsetAddresses(last.addresses, last.ports);
    if i < n - 1 {
      assert init[i] == subsets[i];
      EndpointAddressesComplete(init, a, i, j, k);
    } else {
      SubsetAddressesMember(last.addresses, last.ports, a);
      assert SubsetPair(last.addresses, last.ports, j, k, a);
    }
  }

  /** An address is produced by getK8sEndpointAddresses exactly when it pairs
      some address of some subset with some port of the same subset. */
  lemma EndpointAddressesMember(subsets: seq<EndpointSubset>, a: BackendAddress)
    ensures a in EndpointAddresses(subsets) <==> exists i, j, k :: Produces(subsets, i, j, k, a)
  {
    if a in EndpointAddresses(subsets) {
      EndpointAddressesSound(subsets, a);
    }
    if exists i, j, k :: Produces(subsets, i, j, k, a) {
      var i, j, k :| Produces(subsets, i, j, k, a);
      EndpointAddressesComplete(subsets, a, i, j, k);
    }
  }

  /** One more port appends one address, also after earlier results `acc`. */
  lemma PortAddressesSnoc(acc: seq<BackendAddress>, ip: string, ports: seq<Int32>, k: nat)
    requires k < |ports|
    ensures acc + PortAddresses(ip, ports[..k + 1]) == acc + PortAddresses(ip, ports[..k]) + [BackendAddress(ip, ToUint16(ports[k]))]
  {
    assert ports[..k + 1][..k] == ports[..k];
    var a := BackendAddress(ip, ToUint16(ports[k]));
    assert acc + (PortAddresses(ip, ports[..k]) + [a]) == acc + PortAddresses(ip, ports[..k]) + [a];
  }

  /** One more address appends its per-port addresses, also after earlier
      results `acc`. */
  lemma SubsetAddressesSnoc(acc: seq<BackendAddress>, addresses: seq<string>, ports: seq<Int32>, j: nat)
    requires j < |addresses|
    ensures acc + SubsetAddresses(addresses[..j + 1], ports)
            == acc + SubsetAddresses(addresses[..j], ports) + PortAddresses(addresses[j], ports)
  {
    assert addresses[..j + 1][..j] == addresses[..j];
    var x, y := SubsetAddresses(addresses[..j], ports), PortAddresses(addresses[j], ports);
    assert acc + (x + y) == acc + x + y;
  }

  lemma EndpointAddressesSnoc(subsets: seq<EndpointSubset>, i: nat)
    requires i < |subsets|
    ensures EndpointAddresses(subsets[..i + 1])
            == EndpointAddresses(subsets[..i]) + SubsetAddresses(subsets[i].addresses, subsets[i].ports)
  {
    assert subsets[..i + 1][..i] == subsets[..i];
  }

  /** getK8sEndpointAddresses: the cross product of addresses and ports, built by
      appending in subset, then address, then port order. */
  method GetK8sEndpointAddresses(ep: K8sEndpoints) returns (result: seq<BackendAddress>)
    ensures result == EndpointAddresses(ep.subsets)
  {
    result := [];
    for i := 0 to |ep.subsets|
      invariant result == EndpointAddresses(ep.subsets[..i])
    {
      var subset := ep.subsets[i];
      ghost var done := result;
      for j := 0 to |subset.addresses|
        invariant result == done + SubsetAddresses(subset.addresses[..j], subset.ports)
      {
        var ip := subset.addresses[j];
        ghost var before := result;
        for k := 0 to |subset.ports|
          invariant result == before + PortAddresses(ip, subset.ports[..k])
        {
          var ba := BackendAddress(ip, ToUint16(subset.ports[k]));
          assert before + PortAddresses(ip, subset.ports[..k + 1]) == result + [ba] by {
            PortAddressesSnoc(before, ip, subset.ports, k);
          }
          result := result + [ba];
        }
        assert result == done + SubsetAddresses(subset.addresses[..j + 1], subset.ports) by {
          assert subset.ports[..|subset.ports|] == subset.ports;
          SubsetAddressesSnoc(done, subset.addresses, subset.ports, j);
        }
      }
      assert result == EndpointAddresses(ep.subsets[..i + 1]) by {
        assert subset.addresses[..|subset.addresses|] == subset.addresses;
        EndpointAddressesSnoc(ep.subsets, i);
      }
    }
    assert ep.subsets[..|ep.subsets|] == ep.subsets;
  }
}

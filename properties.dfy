/** What construction produces, stated against the configuration: the order of the
    declarations, what each one carries, the `subnets`/`ports` arrays, the registry,
    the error path of an extra port, and when the derived names collide. */
module BuildProperties {
  import opened Wrappers
  import opened Resources
  import opened Naming
  import opened Builder
  import opened Layout

  /** Position of subnet i's declaration (its router interface follows it). */
  function SubnetAt(i: nat): nat { 2 + 2 * i }

  /** Position of extra port j's declaration, after `s` subnets (its interface follows it). */
  function PortAt(s: nat, j: nat): nat { 2 + 2 * s + 2 * j }

  /** Position of route q, after `s` subnets and `p` ports. */
  function RouteAt(s: nat, p: nat, q: nat): nat { 2 + 2 * s + 2 * p + q }

  /** The state once the subnet loop has run. */
  function AfterSubnets(name: string, args: ComponentArgs): State {
    DeclareSubnets(Start(name, args.networkConfig), SubnetList(args.networkConfig))
  }

  /** The outcome of the port loop. */
  function AfterPorts(name: string, args: ComponentArgs): Run {
    DeclarePorts(AfterSubnets(name, args), PortList(args.networkConfig))
  }

  /** The first two declarations and the subnet pairs, once the subnet loop has run. */
  lemma AfterSubnetsLayout(name: string, args: ComponentArgs)
    ensures var config := args.networkConfig; var st := AfterSubnets(name, args);
      var subs := SubnetList(config);
      && st.base == name && st.router == 0 && st.network == 1 && st.ports == []
      && |st.decls| == SubnetAt(|subs|)
      && st.decls[0] == RouterDecl(name, config.routerConfig)
      && st.decls[1] == NetworkDecl(name, config)
      && |st.subnets| == |subs|
      && (forall i :: 0 <= i < |subs| ==>
            && st.subnets[i] == SubnetAt(i)
            && st.decls[SubnetAt(i)] == SubnetDecl(name, subs[i], 1)
            && st.decls[SubnetAt(i) + 1] == SubnetInterfaceDecl(name, subs[i], 0, SubnetAt(i)))
  {
    var config := args.networkConfig;
    var subs := SubnetList(config);
    var s0 := Start(name, config);
    assert |s0.decls| == 2 && |s0.subnets| == 0;
    DeclareSubnetsLayout(s0, subs);
    var s1 := AfterSubnets(name, args);
    assert s1.decls[..2] == s0.decls;
    assert s1.decls[0] == s1.decls[..2][0];
    assert s1.decls[1] == s1.decls[..2][1];
    forall i | 0 <= i < |subs|
      ensures s1.subnets[i] == SubnetAt(i)
      ensures s1.decls[SubnetAt(i)] == SubnetDecl(name, subs[i], 1)
      ensures s1.decls[SubnetAt(i) + 1] == SubnetInterfaceDecl(name, subs[i], 0, SubnetAt(i))
    {
      assert s1.subnets[|s0.subnets| + i] == |s0.decls| + 2 * i;
    }
  }

  /** The subnet loop keeps the base name, the router and the network, declares no
      port, and leaves two declarations per subnet after the first two. */
  lemma AfterSubnetsHandles(name: string, args: ComponentArgs)
    ensures var st := AfterSubnets(name, args);
      && st.base == name && st.router == 0 && st.network == 1 && st.ports == []
      && |st.decls| == SubnetAt(|SubnetList(args.networkConfig)|)
      && |st.subnets| == |SubnetList(args.networkConfig)|
  {
    var s0 := Start(name, args.networkConfig);
    assert |s0.decls| == 2 && |s0.subnets| == 0;
    DeclareSubnetsLayout(s0, SubnetList(args.networkConfig));
  }

  /** The port loop keeps the state of the subnet loop as a prefix, declares two
      declarations for each port before the first unresolvable one, and reports that
      port's error. */
  lemma AfterPortsLayout(name: string, args: ComponentArgs)
    ensures var s1 := AfterSubnets(name, args);
      var run := AfterPorts(name, args); var st := run.state;
      var ports := PortList(args.networkConfig); var k := FirstUnresolved(ports, 1);
      && st.base == s1.base && st.router == s1.router && st.network == s1.network
      && st.subnets == s1.subnets && st.subnetMap == s1.subnetMap
      && |st.decls| == |s1.decls| + 2 * k
      && (forall i :: 0 <= i < |s1.decls| ==> st.decls[i] == s1.decls[i])
      && |st.ports| == k
      && run.failure == (if k < |ports| then Some(MissingNetworkId(ports[k].name)) else None)
  {
    var s1 := AfterSubnets(name, args);
    AfterSubnetsHandles(name, args);
    DeclarePortsOutcome(s1, PortList(args.networkConfig));
    var st := AfterPorts(name, args).state;
    forall i | 0 <= i < |s1.decls| ensures st.decls[i] == s1.decls[i] {
      assert st.decls[..|s1.decls|][i] == st.decls[i];
    }
  }

  /** Port j, when every port up to it resolved, is declared by the port loop right
      after the subnet phase's declarations, at offset 2j, followed by its interface. */
  lemma AfterPortsAt(name: string, args: ComponentArgs, j: nat)
    requires j < FirstUnresolved(PortList(args.networkConfig), 1)
    ensures var s1 := AfterSubnets(name, args); var st := AfterPorts(name, args).state;
      var ports := PortList(args.networkConfig);
      && j < |st.ports| && |s1.decls| + 2 * j + 1 < |st.decls|
      && st.ports[j] == |s1.decls| + 2 * j
      && st.decls[|s1.decls| + 2 * j] == PortDecl(name, ports[j], 1, TargetNetwork(ports[j], 1).value)
      && st.decls[|s1.decls| + 2 * j + 1] == PortInterfaceDecl(name, ports[j], 0, |s1.decls| + 2 * j)
  {
    var s1 := AfterSubnets(name, args);
    var ports := PortList(args.networkConfig);
    AfterSubnetsHandles(name, args);
    DeclarePortsOutcome(s1, ports);
    DeclarePortsPrefixAt(s1, ports, FirstUnresolved(ports, 1), j);
  }

  /** When every port resolved, the route loop appends one route per configured route. */
  lemma AfterRoutesLayout(name: string, args: ComponentArgs)
    requires AfterPorts(name, args).failure.None?
    ensures var s2 := AfterPorts(name, args).state; var st := Build(name, args).state;
      var routes := RouteList(args.networkConfig);
      && Build(name, args).failure.None?
      && st.base == s2.base && st.router == s2.router && st.network == s2.network
      && st.subnets == s2.subnets && st.ports == s2.ports && st.subnetMap == s2.subnetMap
      && |st.decls| == |s2.decls| + |routes|
      && (forall i :: 0 <= i < |s2.decls| ==> st.decls[i] == s2.decls[i])
      && (forall q :: 0 <= q < |routes| ==>
            st.decls[|s2.decls| + q] == RouteDecl(name, routes[q], s2.router, s2.subnets + s2.ports))
  {
    var s2 := AfterPorts(name, args).state;
    AfterSubnetsHandles(name, args);
    AfterPortsLayout(name, args);
    DeclareRoutesLayout(s2, RouteList(args.networkConfig));
    assert Build(name, args) == Run(DeclareRoutes(s2, RouteList(args.networkConfig)), None);
    var st := Build(name, args).state;
    forall i | 0 <= i < |s2.decls| ensures st.decls[i] == s2.decls[i] {
      assert st.decls[..|s2.decls|][i] == st.decls[i];
    }
  }

  /** Construction only appends after the subnet loop: the router, network and subnet
      declarations, `subnets` and the registry are final once that loop has run. */
  lemma BuildKeepsSubnetPhase(name: string, args: ComponentArgs)
    ensures var s1 := AfterSubnets(name, args); var st := Build(name, args).state;
      && st.base == name && st.router == 0 && st.network == 1
      && st.subnets == s1.subnets && st.subnetMap == s1.subnetMap
      && |st.decls| >= |s1.decls|
      && (forall i :: 0 <= i < |s1.decls| ==> st.decls[i] == s1.decls[i])
  {
    AfterSubnetsHandles(name, args);
    AfterPortsLayout(name, args);
    if AfterPorts(name, args).failure.None? {
      AfterRoutesLayout(name, args);
    }
  }

  /** The extra ports are final once the port loop has run. */
  lemma BuildKeepsPortPhase(name: string, args: ComponentArgs)
    ensures var s2 := AfterPorts(name, args).state; var st := Build(name, args).state;
      && st.ports == s2.ports
      && |st.decls| >= |s2.decls|
      && (forall i :: 0 <= i < |s2.decls| ==> st.decls[i] == s2.decls[i])
      && (AfterPorts(name, args).failure.Some? ==> Build(name, args) == AfterPorts(name, args))
  {
    if AfterPorts(name, args).failure.None? {
      AfterRoutesLayout(name, args);
    }
  }

  /** The built component's handles and array sizes, and when construction completes. */
  lemma BuildHandles(name: string, args: ComponentArgs)
    ensures var run := Build(name, args); var st := run.state;
      var ports := PortList(args.networkConfig); var k := FirstUnresolved(ports, 1);
      && st.base == name && st.router == 0 && st.network == 1
      && |st.subnets| == |SubnetList(args.networkConfig)|
      && |st.ports| == k && k <= |ports|
      && (run.failure.None? <==> k == |ports|)
  {
    AfterSubnetsHandles(name, args);
    AfterPortsLayout(name, args);
    BuildKeepsPortPhase(name, args);
    BuildKeepsSubnetPhase(name, args);
    if AfterPorts(name, args).failure.None? {
      AfterRoutesLayout(name, args);
    }
  }

  /** The first two declarations are the router's and the network's. */
  lemma HeadDeclsAt(name: string, args: ComponentArgs)
    ensures var st := Build(name, args).state;
      && |st.decls| >= 2
      && st.decls[0] == RouterDecl(name, args.networkConfig.routerConfig)
      && st.decls[1] == NetworkDecl(name, args.networkConfig)
  {
    AfterSubnetsLayout(name, args);
    BuildKeepsSubnetPhase(name, args);
  }

  /** Subnet i's declaration and its interface's, at positions 2+2i and 3+2i. */
  lemma SubnetDeclAt(name: string, args: ComponentArgs, i: nat)
    requires i < |SubnetList(args.networkConfig)|
    ensures var st := Build(name, args).state; var sub := SubnetList(args.networkConfig)[i];
      && i < |st.subnets| && st.subnets[i] == SubnetAt(i) && SubnetAt(i) + 1 < |st.decls|
      && st.decls[SubnetAt(i)] == SubnetDecl(name, sub, 1)
      && st.decls[SubnetAt(i) + 1] == SubnetInterfaceDecl(name, sub, 0, SubnetAt(i))
  {
    AfterSubnetsLayout(name, args);
    BuildKeepsSubnetPhase(name, args);
  }

  /** Declared port j's declaration and its interface's, after the S subnets. */
  lemma PortDeclAt(name: string, args: ComponentArgs, j: nat)
    requires j < FirstUnresolved(PortList(args.networkConfig), 1)
    ensures var st := Build(name, args).state; var port := PortList(args.networkConfig)[j];
      var at := PortAt(|SubnetList(args.networkConfig)|, j);
      && j < |st.ports| && st.ports[j] == at && at + 1 < |st.decls|
      && st.decls[at] == PortDecl(name, port, 1, TargetNetwork(port, 1).value)
      && st.decls[at + 1] == PortInterfaceDecl(name, port, 0, at)
  {
    AfterSubnetsHandles(name, args);
    AfterPortsAt(name, args, j);
    BuildKeepsPortPhase(name, args);
  }

  /** Route q's declaration, after the subnets and ports, when construction completed. */
  lemma RouteDeclAt(name: string, args: ComponentArgs, q: nat)
    requires Build(name, args).failure.None?
    requires q < |RouteList(args.networkConfig)|
    ensures var st := Build(name, args).state;
      var at := RouteAt(|SubnetList(args.networkConfig)|, |PortList(args.networkConfig)|, q);
      && at < |st.decls|
      && st.decls[at] == RouteDecl(name, RouteList(args.networkConfig)[q], 0, st.subnets + st.ports)
  {
    AfterSubnetsHandles(name, args);
    AfterPortsLayout(name, args);
    BuildKeepsPortPhase(name, args);
    AfterRoutesLayout(name, args);
  }

  /** The router is declared first, under `<base>-router`, as a child of the component,
      with its arguments less `additionalPorts` and with the derived name. */
  lemma RouterDeclaredFirst(name: string, args: ComponentArgs)
    ensures var st := Build(name, args).state; var rest := args.networkConfig.routerConfig.rest;
      && |st.decls| >= 2
      && st.decls[0].kind == Router
      && st.decls[0].name == name + "-router"
      && st.decls[0].parent == Component
      && st.decls[0].dependsOn == []
      && st.decls[0].props.Keys == rest.Keys - {"additionalPorts"} + {"name"}
      && st.decls[0].props["name"] == Lit(Str(name + "-router"))
      && (forall k :: k in rest && k != "additionalPorts" && k != "name" ==> st.decls[0].props[k] == Lit(rest[k]))
  {
    HeadDeclsAt(name, args);
    RouterDeclFields(name, args.networkConfig.routerConfig);
  }

  /** The network is declared second, under `<base>-net`, as a child of the component,
      with the network block's own arguments, the derived name, and `routerConfig`,
      `subnets` and `routes` set to undefined. */
  lemma NetworkDeclaredSecond(name: string, args: ComponentArgs)
    ensures var st := Build(name, args).state; var rest := args.networkConfig.rest;
      && |st.decls| >= 2
      && st.decls[1].kind == Network
      && st.decls[1].name == name + "-net"
      && st.decls[1].parent == Component
      && st.decls[1].dependsOn == []
      && st.decls[1].props.Keys == rest.Keys + {"name", "routerConfig", "subnets", "routes"}
      && st.decls[1].props["name"] == Lit(Str(name + "-net"))
      && st.decls[1].props["routerConfig"] == Undefined
      && st.decls[1].props["subnets"] == Undefined
      && st.decls[1].props["routes"] == Undefined
      && (forall k :: k in rest && k !in {"name", "routerConfig", "subnets", "routes"} ==>
            st.decls[1].props[k] == Lit(rest[k]))
  {
    HeadDeclsAt(name, args);
    NetworkDeclFields(name, args.networkConfig);
  }

  /** Subnet i is declared at position 2+2i as `<base>-subnet-<name>`, a child of the
      component's network carrying that network's id; its router interface follows
      it as `<subnet name>-if`, a child of the subnet, depending on the router and
      carrying the router's and the subnet's ids. */
  lemma SubnetDeclared(name: string, args: ComponentArgs, i: nat)
    requires i < |SubnetList(args.networkConfig)|
    ensures var st := Build(name, args).state; var sub := SubnetList(args.networkConfig)[i];
      var at := SubnetAt(i);
      && at + 1 < |st.decls|
      && i < |st.subnets| && st.subnets[i] == at
      && st.decls[at].kind == Subnet
      && st.decls[at].name == name + "-subnet-" + sub.name
      && st.decls[at].parent == Resource(1)
      && st.decls[at].dependsOn == []
      && st.decls[at].props.Keys == sub.rest.Keys + {"name", "networkId"}
      && st.decls[at].props["networkId"] == Id(1)
      && st.decls[at].props["name"] == Lit(Str(name + "-subnet-" + sub.name))
      && (forall k :: k in sub.rest && k !in {"name", "networkId"} ==> st.decls[at].props[k] == Lit(sub.rest[k]))
      && st.decls[at + 1].kind == RouterInterface
      && st.decls[at + 1].name == name + "-subnet-" + sub.name + "-if"
      && st.decls[at + 1].parent == Resource(at)
      && st.decls[at + 1].dependsOn == [0]
      && st.decls[at + 1].props == map["routerId" := Id(0), "subnetId" := Id(at)]
  {
    SubnetDeclAt(name, args, i);
    SubnetDeclFields(name, SubnetList(args.networkConfig)[i], 1);
  }

  /** Extra port j, when every port before it resolved its network, is declared at
      position 2+2S+2j (S subnets) as `<base>-port-<name>`, a child of the component's
      network, with all of its arguments (`selfNetwork` included), the derived name and
      the resolved network; its router interface follows it as `<port name>-if`, a
      child of the port, depending on the router. */
  lemma PortDeclared(name: string, args: ComponentArgs, j: nat)
    requires j < FirstUnresolved(PortList(args.networkConfig), 1)
    ensures var st := Build(name, args).state; var port := PortList(args.networkConfig)[j];
      var at := PortAt(|SubnetList(args.networkConfig)|, j);
      && at + 1 < |st.decls|
      && j < |st.ports| && st.ports[j] == at
      && st.decls[at].kind == Port
      && st.decls[at].name == name + "-port-" + port.name
      && st.decls[at].parent == Resource(1)
      && st.decls[at].dependsOn == []
      && "networkId" in st.decls[at].props && st.decls[at].props["networkId"] == TargetNetwork(port, 1).value
      && "name" in st.decls[at].props && st.decls[at].props["name"] == Lit(Str(name + "-port-" + port.name))
      && (port.selfNetwork.Some? ==>
            "selfNetwork" in st.decls[at].props && st.decls[at].props["selfNetwork"] == Lit(Flag(port.selfNetwork.value)))
      && (forall k :: k in port.rest && k !in {"name", "networkId", "selfNetwork"} ==>
            k in st.decls[at].props && st.decls[at].props[k] == Lit(port.rest[k]))
      && st.decls[at + 1].kind == RouterInterface
      && st.decls[at + 1].name == name + "-port-" + port.name + "-if"
      && st.decls[at + 1].parent == Resource(at)
      && st.decls[at + 1].dependsOn == [0]
      && st.decls[at + 1].props == map["routerId" := Id(0), "portId" := Id(at)]
  {
    var port := PortList(args.networkConfig)[j];
    PortDeclAt(name, args, j);
    PortDeclFields(name, port, 1, TargetNetwork(port, 1).value);
  }

  /** Two extra ports, the first with `selfNetwork` set and the second with a truthy
      explicit network id: the first is created in the component's own network, the
      second in the supplied one; neither port depends on the other, and each needs
      only the network declaration. */
  lemma SelfAndExternalPorts(name: string, args: ComponentArgs, external: Input)
    requires var ports := PortList(args.networkConfig);
      && |ports| == 2 && ports[0].selfNetwork == Some(true)
      && ports[1].selfNetwork != Some(true) && ports[1].networkId == Some(external) && Truthy(external)
    ensures var st := Build(name, args).state; var at := PortAt(|SubnetList(args.networkConfig)|, 0);
      && Build(name, args).failure.None?
      && st.ports == [at, at + 2] && at + 2 < |st.decls|
      && "networkId" in st.decls[at].props && st.decls[at].props["networkId"] == Id(1)
      && "networkId" in st.decls[at + 2].props && st.decls[at + 2].props["networkId"] == Lit(external)
      && st.decls[at].dependsOn == [] && st.decls[at + 2].dependsOn == []
      && Prereqs(st.decls[at]) == {1} && Prereqs(st.decls[at + 2]) == {1}
  {
    var ports := PortList(args.networkConfig);
    TwoPortsResolve(ports);
    BuildHandles(name, args);
    PortDeclAt(name, args, 0);
    PortDeclAt(name, args, 1);
    PortDeclPrereqs(name, ports[0], 1, TargetNetwork(ports[0], 1).value);
    PortDeclPrereqs(name, ports[1], 1, TargetNetwork(ports[1], 1).value);
  }

  lemma TwoPortsResolve(ports: seq<PortArgs>)
    requires |ports| == 2
    requires TargetNetwork(ports[0], 1).Success? && TargetNetwork(ports[1], 1).Success?
    ensures FirstUnresolved(ports, 1) == 2
  {
    assert ports[..1] == [ports[0]];
    assert FirstUnresolved(ports[..1], 1) == 1;
  }

  /** Route q, when construction completed, is declared at position 2+2S+2P+q (S
      subnets, P ports) as `<base>-route-<description>`, a child of the router, with
      its arguments less `description`, the router's id, and an explicit dependency on
      exactly every subnet followed by every port. */
  lemma RouteDeclared(name: string, args: ComponentArgs, q: nat)
    requires Build(name, args).failure.None?
    requires q < |RouteList(args.networkConfig)|
    ensures var st := Build(name, args).state; var route := RouteList(args.networkConfig)[q];
      var at := RouteAt(|SubnetList(args.networkConfig)|, |PortList(args.networkConfig)|, q);
      && at < |st.decls|
      && st.decls[at].kind == RouterRoute
      && st.decls[at].name == name + "-route-" + route.description
      && st.decls[at].parent == Resource(0)
      && st.decls[at].props.Keys == route.rest.Keys - {"description"} + {"routerId"}
      && "description" !in st.decls[at].props
      && st.decls[at].props["routerId"] == Id(0)
      && (forall k :: k in route.rest && k !in {"description", "routerId"} ==> st.decls[at].props[k] == Lit(route.rest[k]))
      && st.decls[at].dependsOn == st.subnets + st.ports
  {
    var st := Build(name, args).state;
    RouteDeclAt(name, args, q);
    RouteDeclFields(name, RouteList(args.networkConfig)[q], 0, st.subnets + st.ports);
  }

  /** `subnets` holds one subnet per configured subnet, in configuration order, whether
      or not a later port interrupted construction. */
  lemma SubnetsInConfigurationOrder(name: string, args: ComponentArgs)
    ensures var st := Build(name, args).state; var subs := SubnetList(args.networkConfig);
      && |st.subnets| == |subs|
      && (forall i :: 0 <= i < |subs| ==>
            && st.subnets[i] < |st.decls|
            && st.decls[st.subnets[i]].kind == Subnet
            && st.decls[st.subnets[i]].name == SubnetName(name, subs[i].name))
      && (forall i, j :: 0 <= i < j < |subs| ==> st.subnets[i] < st.subnets[j])
  {
    AfterSubnetsLayout(name, args);
    BuildKeepsSubnetPhase(name, args);
  }

  /** The registry knows exactly the configured logical subnet names; each maps to the
      subnet declared last under that name, which carries the name derived from it. */
  lemma SubnetRegistry(name: string, args: ComponentArgs, n: string)
    ensures var st := Build(name, args).state; var subs := SubnetList(args.networkConfig);
      && (n in st.subnetMap <==> exists i :: 0 <= i < |subs| && subs[i].name == n)
      && (n in st.subnetMap ==>
            && 0 <= LastNamed(subs, n) < |st.subnets|
            && st.subnetMap[n] == st.subnets[LastNamed(subs, n)]
            && st.subnetMap[n] < |st.decls|
            && st.decls[st.subnetMap[n]].kind == Subnet
            && st.decls[st.subnetMap[n]].name == SubnetName(name, n))
  {
    var subs := SubnetList(args.networkConfig);
    var s0 := Start(name, args.networkConfig);
    DeclareSubnetsRegistry(s0, subs, n);
    AfterSubnetsLayout(name, args);
    BuildKeepsSubnetPhase(name, args);
    if exists i :: 0 <= i < |subs| && subs[i].name == n {
      var i :| 0 <= i < |subs| && subs[i].name == n;
      assert LastNamed(subs, n) >= i;
    }
  }

  /** A later subnet with the same logical name takes over the registry entry, while
      both subnets stay declared and listed in `subnets`. */
  lemma LaterSubnetOverwritesEntry(name: string, args: ComponentArgs, i: nat, j: nat)
    requires var subs := SubnetList(args.networkConfig); i < j < |subs| && subs[i].name == subs[j].name
    ensures var st := Build(name, args).state; var subs := SubnetList(args.networkConfig);
      && j < |st.subnets| && st.subnets[i] != st.subnets[j]
      && subs[i].name in st.subnetMap
      && st.subnetMap[subs[i].name] != st.subnets[i]
  {
    var subs := SubnetList(args.networkConfig);
    SubnetRegistry(name, args, subs[i].name);
    SubnetsInConfigurationOrder(name, args);
    assert LastNamed(subs, subs[i].name) >= j;
  }

  /** The set of logical names of a subnet list. */
  function NamesOf(subs: seq<SubnetArgs>): set<string> {
    set i | 0 <= i < |subs| :: subs[i].name
  }

  predicate DistinctSubnetNames(subs: seq<SubnetArgs>) {
    forall i, j :: 0 <= i < j < |subs| ==> subs[i].name != subs[j].name
  }

  lemma {:induction false} DistinctNamesCount(subs: seq<SubnetArgs>)
    requires DistinctSubnetNames(subs)
    ensures |NamesOf(subs)| == |subs|
    decreases |subs|
  {
    if |subs| > 0 {
      var init := subs[..|subs| - 1];
      var last := subs[|subs| - 1];
      DistinctNamesCount(init);
      assert NamesOf(subs) == NamesOf(init) + {last.name} by {
        forall n | n in NamesOf(subs) ensures n in NamesOf(init) + {last.name} {
          var i :| 0 <= i < |subs| && subs[i].name == n;
          if i < |init| { assert init[i] == subs[i]; }
        }
        forall n | n in NamesOf(init) ensures n in NamesOf(subs) {
          var i :| 0 <= i < |init| && init[i].name == n;
          assert subs[i] == init[i];
        }
      }
      forall i | 0 <= i < |init| ensures init[i].name != last.name {
        assert init[i] == subs[i];
      }
    }
  }

  /** With distinct logical names, the registry holds exactly one entry per configured subnet. */
  lemma RegistrySizeWhenNamesDistinct(name: string, args: ComponentArgs)
    requires DistinctSubnetNames(SubnetList(args.networkConfig))
    ensures |Build(name, args).state.subnetMap| == |SubnetList(args.networkConfig)|
  {
    var subs := SubnetList(args.networkConfig);
    var m := Build(name, args).state.subnetMap;
    forall n ensures n in m.Keys <==> n in NamesOf(subs) {
      SubnetRegistry(name, args, n);
    }
    assert m.Keys == NamesOf(subs);
    DistinctNamesCount(subs);
  }

  /** A port whose network cannot be resolved ends construction: its error names it,
      every subnet and every earlier port stay declared, and neither that port, any
      later port, nor any route is declared. */
  lemma UnresolvedPortStopsConstruction(name: string, args: ComponentArgs)
    requires FirstUnresolved(PortList(args.networkConfig), 1) < |PortList(args.networkConfig)|
    ensures var run := Build(name, args); var st := run.state;
      var ports := PortList(args.networkConfig); var k := FirstUnresolved(ports, 1);
      && run.failure == Some(MissingNetworkId(ports[k].name))
      && |st.subnets| == |SubnetList(args.networkConfig)|
      && |st.ports| == k
      && |st.decls| == PortAt(|SubnetList(args.networkConfig)|, k)
      && (forall i :: 0 <= i < |st.decls| ==> st.decls[i].kind != RouterRoute)
  {
    AfterPortsLayout(name, args);
    BuildKeepsPortPhase(name, args);
    BuildHandles(name, args);
    LogLength(name, args);
    DeclarationOrder(name, args);
  }

  /** What occupies a position of the log. */
  datatype Slot =
    | RouterSlot
    | NetworkSlot
    | SubnetSlot(i: nat)
    | SubnetInterfaceSlot(i: nat)
    | PortSlot(j: nat)
    | PortInterfaceSlot(j: nat)
    | RouteSlot(q: nat)

  /** The slot at position `at` of a log with `s` subnets and `p` declared ports. */
  function SlotOf(s: nat, p: nat, at: nat): Slot {
    if at == 0 then RouterSlot
    else if at == 1 then NetworkSlot
    else if at < SubnetAt(s) then
      (if at % 2 == 0 then SubnetSlot((at - 2) / 2) else SubnetInterfaceSlot((at - 3) / 2))
    else if at < PortAt(s, p) then
      (if at % 2 == 0 then PortSlot((at - SubnetAt(s)) / 2) else PortInterfaceSlot((at - SubnetAt(s) - 1) / 2))
    else RouteSlot(at - PortAt(s, p))
  }

  /** The resource type declared in a slot. */
  function SlotKind(slot: Slot): Kind {
    match slot
    case RouterSlot => Router
    case NetworkSlot => Network
    case SubnetSlot(_) => Subnet
    case SubnetInterfaceSlot(_) => RouterInterface
    case PortSlot(_) => Port
    case PortInterfaceSlot(_) => RouterInterface
    case RouteSlot(_) => RouterRoute
  }

  lemma DeclInSubnetRegion(name: string, args: ComponentArgs, at: nat)
    requires 2 <= at < SubnetAt(|SubnetList(args.networkConfig)|)
    ensures var st := Build(name, args).state; var subs := SubnetList(args.networkConfig);
      var i := (at - 2) / 2;
      && i < |subs| && at < |st.decls|
      && (at % 2 == 0 ==> at == SubnetAt(i) && st.decls[at] == SubnetDecl(name, subs[i], 1))
      && (at % 2 == 1 ==> at == SubnetAt(i) + 1 && st.decls[at] == SubnetInterfaceDecl(name, subs[i], 0, SubnetAt(i)))
  {
    var i := (at - 2) / 2;
    SubnetDeclAt(name, args, i);
    if at % 2 == 0 {
      assert at == SubnetAt(i);
    } else {
      assert at == SubnetAt(i) + 1;
    }
  }

  lemma DeclInPortRegion(name: string, args: ComponentArgs, at: nat)
    requires var st := Build(name, args).state; var s := |SubnetList(args.networkConfig)|;
      SubnetAt(s) <= at < PortAt(s, |st.ports|)
    ensures var st := Build(name, args).state; var s := |SubnetList(args.networkConfig)|;
      var ports := PortList(args.networkConfig);
      var j := (at - SubnetAt(s)) / 2;
      && j < |st.ports| <= |ports| && at < |st.decls|
      && TargetNetwork(ports[j], 1).Success?
      && (at % 2 == 0 ==> at == PortAt(s, j) && st.decls[at] == PortDecl(name, ports[j], 1, TargetNetwork(ports[j], 1).value))
      && (at % 2 == 1 ==> at == PortAt(s, j) + 1 && st.decls[at] == PortInterfaceDecl(name, ports[j], 0, PortAt(s, j)))
  {
    BuildHandles(name, args);
    var s := |SubnetList(args.networkConfig)|;
    var j := (at - SubnetAt(s)) / 2;
    PortDeclAt(name, args, j);
    if at % 2 == 0 {
      assert at == PortAt(s, j);
    } else {
      assert at == PortAt(s, j) + 1;
    }
  }

  lemma DeclInRouteRegion(name: string, args: ComponentArgs, at: nat)
    requires var st := Build(name, args).state; var s := |SubnetList(args.networkConfig)|;
      PortAt(s, |st.ports|) <= at < |st.decls|
    ensures var st := Build(name, args).state; var s := |SubnetList(args.networkConfig)|;
      var ports := PortList(args.networkConfig); var routes := RouteList(args.networkConfig);
      var q := at - PortAt(s, |st.ports|);
      && Build(name, args).failure.None? && |st.ports| == |ports| && q < |routes|
      && st.decls[at] == RouteDecl(name, routes[q], 0, st.subnets + st.ports)
  {
    var s := |SubnetList(args.networkConfig)|;
    BuildHandles(name, args);
    LogLength(name, args);
    var q := at - PortAt(s, |Build(name, args).state.ports|);
    RouteDeclAt(name, args, q);
  }

  /** Every position of the log holds the declaration its slot says: router, network,
      each subnet and its interface, each declared port and its interface, each route. */
  lemma DeclAt(name: string, args: ComponentArgs, at: nat)
    requires at < |Build(name, args).state.decls|
    ensures var st := Build(name, args).state; var config := args.networkConfig;
      var subs := SubnetList(config); var ports := PortList(config); var routes := RouteList(config);
      match SlotOf(|subs|, |st.ports|, at)
      case RouterSlot => st.decls[at] == RouterDecl(name, config.routerConfig)
      case NetworkSlot => st.decls[at] == NetworkDecl(name, config)
      case SubnetSlot(i) => i < |subs| && at == SubnetAt(i) && st.decls[at] == SubnetDecl(name, subs[i], 1)
      case SubnetInterfaceSlot(i) =>
        i < |subs| && at == SubnetAt(i) + 1 && st.decls[at] == SubnetInterfaceDecl(name, subs[i], 0, SubnetAt(i))
      case PortSlot(j) =>
        j < |st.ports| <= |ports| && at == PortAt(|subs|, j) && TargetNetwork(ports[j], 1).Success?
        && st.decls[at] == PortDecl(name, ports[j], 1, TargetNetwork(ports[j], 1).value)
      case PortInterfaceSlot(j) =>
        j < |st.ports| <= |ports| && at == PortAt(|subs|, j) + 1
        && st.decls[at] == PortInterfaceDecl(name, ports[j], 0, PortAt(|subs|, j))
      case RouteSlot(q) =>
        Build(name, args).failure.None? && |st.ports| == |ports| && q < |routes|
        && st.decls[at] == RouteDecl(name, routes[q], 0, st.subnets + st.ports)
  {
    var st := Build(name, args).state;
    var s := |SubnetList(args.networkConfig)|;
    if at < 2 {
      HeadDeclsAt(name, args);
    } else if at < SubnetAt(s) {
      DeclInSubnetRegion(name, args, at);
    } else if at < PortAt(s, |st.ports|) {
      DeclInPortRegion(name, args, at);
    } else {
      DeclInRouteRegion(name, args, at);
    }
  }

  /** The length of the log: two declarations per subnet and per declared port after
      the router and the network, then, when no port failed, one per route. */
  lemma LogLength(name: string, args: ComponentArgs)
    ensures var run := Build(name, args); var st := run.state;
      var s := |SubnetList(args.networkConfig)|;
      && |st.decls| == PortAt(s, |st.ports|) + (if run.failure.None? then |RouteList(args.networkConfig)| else 0)
      && (run.failure.None? ==> |st.ports| == |PortList(args.networkConfig)|)
  {
    AfterSubnetsHandles(name, args);
    AfterPortsLayout(name, args);
    BuildKeepsPortPhase(name, args);
    if AfterPorts(name, args).failure.None? {
      AfterRoutesLayout(name, args);
    }
  }

  /** The declaration order: the router, then the network, then each subnet immediately
      followed by its interface, then each declared port immediately followed by its
      interface, then the routes. */
  lemma DeclarationOrder(name: string, args: ComponentArgs)
    ensures var st := Build(name, args).state; var s := |SubnetList(args.networkConfig)|;
      forall at :: 0 <= at < |st.decls| ==> st.decls[at].kind == SlotKind(SlotOf(s, |st.ports|, at))
  {
    var st := Build(name, args).state;
    var s := |SubnetList(args.networkConfig)|;
    forall at | 0 <= at < |st.decls| ensures st.decls[at].kind == SlotKind(SlotOf(s, |st.ports|, at)) {
      DeclAt(name, args, at);
    }
  }

  /** Every route comes after every subnet and every port, depends on exactly all of
      them, and on nothing else: its explicit dependencies are subnet and port
      declarations, none of them a router interface. */
  lemma RoutesFollowSubnetsAndPorts(name: string, args: ComponentArgs, at: nat)
    requires at < |Build(name, args).state.decls|
    requires Build(name, args).state.decls[at].kind == RouterRoute
    ensures var st := Build(name, args).state; var d := st.decls[at];
      && d.dependsOn == st.subnets + st.ports
      && |st.subnets| == |SubnetList(args.networkConfig)|
      && |st.ports| == |PortList(args.networkConfig)|
      && (forall h :: h in d.dependsOn ==>
            h < at && (st.decls[h].kind == Subnet || st.decls[h].kind == Port))
  {
    var st := Build(name, args).state;
    var s := |SubnetList(args.networkConfig)|;
    DeclAt(name, args, at);
    BuildHandles(name, args);
    LogLength(name, args);
    assert at >= PortAt(s, |st.ports|);
    forall h | h in st.subnets + st.ports
      ensures h < at && (st.decls[h].kind == Subnet || st.decls[h].kind == Port)
    {
      if h in st.subnets {
        var i :| 0 <= i < |st.subnets| && st.subnets[i] == h;
        SubnetDeclAt(name, args, i);
      } else {
        var j :| 0 <= j < |st.ports| && st.ports[j] == h;
        PortDeclAt(name, args, j);
      }
    }
  }
}

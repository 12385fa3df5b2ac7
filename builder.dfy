/** The component's construction as a function of its configuration: one state
    transformer per method of the component, and the fold that the constructor runs.
    The provisioning engine is reduced to the log of declarations handed to it. */
module Builder {
  import opened Wrappers
  import opened Resources
  import opened Naming

  /** What the component holds while it is being built: its base name, the handles of
      its router and network, the declarations emitted so far, its `subnets` and `ports`
      arrays, and the `subnetMap` registry from logical subnet name to subnet. */
  datatype State = State(
    base: string,
    router: Handle,
    network: Handle,
    decls: seq<Decl>,
    subnets: seq<Handle>,
    ports: seq<Handle>,
    subnetMap: map<string, Handle>)

  /** A state together with the error that interrupted construction, if any. */
  datatype Run = Run(state: State, failure: Option<Error>)

  /** The router: its arguments without `additionalPorts`, under the derived name. */
  function RouterDecl(base: string, config: RouterArgs): Decl {
    var name := RouterName(base);
    Decl(Router, name, (Lift(config.rest) - {"additionalPorts"})["name" := Lit(Str(name))], Component, [])
  }

  /** The network: the whole network block spread in, the derived name, and the three
      embedded configuration keys set to `undefined`. */
  function NetworkDecl(base: string, config: NetworkArgs): Decl {
    var name := NetworkName(base);
    var props := Lift(config.rest)["name" := Lit(Str(name))]
      ["routerConfig" := Undefined]["subnets" := Undefined]["routes" := Undefined];
    Decl(Network, name, props, Component, [])
  }

  /** A subnet's arguments as a record: the passthrough fields and its logical name. */
  function SubnetObject(s: SubnetArgs): Props {
    Lift(s.rest)["name" := Lit(Str(s.name))]
  }

  function SubnetDecl(base: string, s: SubnetArgs, network: Handle): Decl {
    var name := SubnetName(base, s.name);
    Decl(Subnet, name, SubnetObject(s)["name" := Lit(Str(name))]["networkId" := Id(network)], Resource(network), [])
  }

  function SubnetInterfaceDecl(base: string, s: SubnetArgs, router: Handle, subnet: Handle): Decl {
    Decl(RouterInterface, InterfaceName(SubnetName(base, s.name)),
      map["routerId" := Id(router), "subnetId" := Id(subnet)], Resource(subnet), [router])
  }

  /** A port's arguments as a record: the passthrough fields, `selfNetwork` and
      `networkId` when given, and its logical name. A port record has one
      `selfNetwork` and one `networkId` key, held in their own fields, so copies of
      those keys in the passthrough part do not reach the record. */
  function PortObject(p: PortArgs): Props {
    var passthrough := Lift(p.rest - {"selfNetwork", "networkId"});
    var withFlag := if p.selfNetwork.Some? then passthrough["selfNetwork" := Lit(Flag(p.selfNetwork.value))] else passthrough;
    var withNet := if p.networkId.Some? then withFlag["networkId" := Lit(p.networkId.value)] else withFlag;
    withNet["name" := Lit(Str(p.name))]
  }

  /** The network an extra port is created in: the component's own network when
      `selfNetwork` is set (it defaults to false), otherwise the supplied `networkId`;
      a falsy target is a configuration error naming the port. */
  function TargetNetwork(p: PortArgs, network: Handle): (r: Result<Value, Error>)
    ensures p.selfNetwork == Some(true) ==> r == Success(Id(network))
    ensures p.selfNetwork != Some(true) ==>
      (r.Success? <==> p.networkId.Some? && Truthy(p.networkId.value))
    ensures p.selfNetwork != Some(true) && r.Success? ==> r.value == Lit(p.networkId.value)
    ensures r.Failure? ==> r.error == MissingNetworkId(p.name)
  {
    var selfNetwork := p.selfNetwork.GetOr(false);
    var target := if selfNetwork then Some(Id(network))
                  else if p.networkId.Some? then Some(Lit(p.networkId.value))
                  else None;
    if target.None? || !Defined(target.value) then Failure(MissingNetworkId(p.name))
    else Success(target.value)
  }

  /** The port spreads all of its arguments, `selfNetwork` included. */
  function PortDecl(base: string, p: PortArgs, network: Handle, target: Value): Decl {
    var name := PortName(base, p.name);
    Decl(Port, name, PortObject(p)["name" := Lit(Str(name))]["networkId" := target], Resource(network), [])
  }

  function PortInterfaceDecl(base: string, p: PortArgs, router: Handle, port: Handle): Decl {
    Decl(RouterInterface, InterfaceName(PortName(base, p.name)),
      map["routerId" := Id(router), "portId" := Id(port)], Resource(port), [router])
  }

  /** A route's arguments as a record: the passthrough fields and its description. */
  function RouteObject(r: RouteArgs): Props {
    Lift(r.rest)["description" := Lit(Str(r.description))]
  }

  /** A route: its arguments without `description`, attached to the router, and
      depending on the given subnets and ports. */
  function RouteDecl(base: string, r: RouteArgs, router: Handle, deps: seq<Handle>): Decl {
    Decl(RouterRoute, RouteName(base, r.description),
      (RouteObject(r) - {"description"})["routerId" := Id(router)], Resource(router), deps)
  }

  /** What the router declaration carries. */
  lemma RouterDeclFields(base: string, config: RouterArgs)
    ensures var d := RouterDecl(base, config); var rest := config.rest;
      && d.kind == Router && d.name == base + "-router" && d.parent == Component && d.dependsOn == []
      && d.props.Keys == rest.Keys - {"additionalPorts"} + {"name"}
      && d.props["name"] == Lit(Str(base + "-router"))
      && (forall k :: k in rest && k != "additionalPorts" && k != "name" ==> d.props[k] == Lit(rest[k]))
  {
  }

  /** What the network declaration carries. */
  lemma NetworkDeclFields(base: string, config: NetworkArgs)
    ensures var d := NetworkDecl(base, config); var rest := config.rest;
      && d.kind == Network && d.name == base + "-net" && d.parent == Component && d.dependsOn == []
      && d.props.Keys == rest.Keys + {"name", "routerConfig", "subnets", "routes"}
      && d.props["name"] == Lit(Str(base + "-net"))
      && d.props["routerConfig"] == Undefined && d.props["subnets"] == Undefined && d.props["routes"] == Undefined
      && (forall k :: k in rest && k !in {"name", "routerConfig", "subnets", "routes"} ==> d.props[k] == Lit(rest[k]))
  {
  }

  /** What a subnet declaration carries. */
  lemma SubnetDeclFields(base: string, s: SubnetArgs, network: Handle)
    ensures var d := SubnetDecl(base, s, network);
      && d.kind == Subnet && d.name == base + "-subnet-" + s.name
      && d.parent == Resource(network) && d.dependsOn == []
      && d.props.Keys == s.rest.Keys + {"name", "networkId"}
      && d.props["networkId"] == Id(network)
      && d.props["name"] == Lit(Str(base + "-subnet-" + s.name))
      && (forall k :: k in s.rest && k !in {"name", "networkId"} ==> d.props[k] == Lit(s.rest[k]))
  {
  }

  /** What a port declaration carries: every supplied argument, `selfNetwork` included. */
  lemma PortDeclFields(base: string, p: PortArgs, network: Handle, target: Value)
    ensures var d := PortDecl(base, p, network, target);
      && d.kind == Port && d.name == base + "-port-" + p.name
      && d.parent == Resource(network) && d.dependsOn == []
      && "networkId" in d.props && d.props["networkId"] == target
      && "name" in d.props && d.props["name"] == Lit(Str(base + "-port-" + p.name))
      && d.props.Keys == p.rest.Keys - {"selfNetwork"} + {"name", "networkId"}
           + (if p.selfNetwork.Some? then {"selfNetwork"} else {})
      && (p.selfNetwork.Some? ==> d.props["selfNetwork"] == Lit(Flag(p.selfNetwork.value)))
      && (forall k :: k in p.rest && k !in {"name", "networkId", "selfNetwork"} ==>
            k in d.props && d.props[k] == Lit(p.rest[k]))
  {
  }

  /** What a route declaration carries: its arguments less `description`, and the router. */
  lemma RouteDeclFields(base: string, r: RouteArgs, router: Handle, deps: seq<Handle>)
    ensures var d := RouteDecl(base, r, router, deps);
      && d.kind == RouterRoute && d.name == base + "-route-" + r.description
      && d.parent == Resource(router) && d.dependsOn == deps
      && d.props.Keys == r.rest.Keys - {"description"} + {"routerId"}
      && "description" !in d.props
      && d.props["routerId"] == Id(router)
      && (forall k :: k in r.rest && k !in {"description", "routerId"} ==> d.props[k] == Lit(r.rest[k]))
  {
  }

  /** The state once the router and the network are declared. */
  function Start(base: string, config: NetworkArgs): State {
    State(base, 0, 1, [RouterDecl(base, config.routerConfig), NetworkDecl(base, config)], [], [], map[])
  }

  /** `createSubnet`: declare the subnet and its router interface, append it to
      `subnets`, and register it under its logical name. */
  function AddSubnet(st: State, s: SubnetArgs): State {
    var at := |st.decls|;
    st.(decls := st.decls + [SubnetDecl(st.base, s, st.network), SubnetInterfaceDecl(st.base, s, st.router, at)],
        subnets := st.subnets + [at],
        subnetMap := st.subnetMap[s.name := at])
  }

  /** `createAdditionalPort`: resolve the target network, or fail; then declare the
      port and its router interface and append it to `ports`. */
  function AddPort(st: State, p: PortArgs): Result<State, Error> {
    match TargetNetwork(p, st.network)
    case Failure(e) => Failure(e)
    case Success(target) =>
      var at := |st.decls|;
      Success(st.(decls := st.decls + [PortDecl(st.base, p, st.network, target), PortInterfaceDecl(st.base, p, st.router, at)],
                  ports := st.ports + [at]))
  }

  /** `createRoute`: declare the route, depending on every subnet and port declared so far. */
  function AddRoute(st: State, r: RouteArgs): State {
    st.(decls := st.decls + [RouteDecl(st.base, r, st.router, st.subnets + st.ports)])
  }

  /** The subnet loop of the constructor, over a prefix of the subnet list. */
  function DeclareSubnets(st: State, subs: seq<SubnetArgs>): State
    decreases |subs|
  {
    if |subs| == 0 then st
    else AddSubnet(DeclareSubnets(st, subs[..|subs| - 1]), subs[|subs| - 1])
  }

  /** The port loop of the constructor: the first port whose network cannot be
      resolved stops it, and the state reached before that port is kept. */
  function DeclarePorts(st: State, ports: seq<PortArgs>): Run
    decreases |ports|
  {
    if |ports| == 0 then Run(st, None)
    else
      var prior := DeclarePorts(st, ports[..|ports| - 1]);
      if prior.failure.Some? then prior
      else match AddPort(prior.state, ports[|ports| - 1])
        case Success(next) => Run(next, None)
        case Failure(e) => Run(prior.state, Some(e))
  }

  /** The route loop of the constructor. */
  function DeclareRoutes(st: State, routes: seq<RouteArgs>): State
    decreases |routes|
  {
    if |routes| == 0 then st
    else AddRoute(DeclareRoutes(st, routes[..|routes| - 1]), routes[|routes| - 1])
  }

  function SubnetList(config: NetworkArgs): seq<SubnetArgs> { config.subnets.GetOr([]) }

  function PortList(config: NetworkArgs): seq<PortArgs> { config.routerConfig.additionalPorts.GetOr([]) }

  function RouteList(config: NetworkArgs): seq<RouteArgs> { config.routes.GetOr([]) }

  /** The whole constructor: router, network, subnets, extra ports, then routes, unless
      a port's network cannot be resolved, which ends construction before any route. */
  function Build(name: string, args: ComponentArgs): Run {
    var config := args.networkConfig;
    var withSubnets := DeclareSubnets(Start(name, config), SubnetList(config));
    var withPorts := DeclarePorts(withSubnets, PortList(config));
    if withPorts.failure.Some? then withPorts
    else Run(DeclareRoutes(withPorts.state, RouteList(config)), None)
  }

  /** The invariant of every reachable state: the router, network, subnet and port
      handles point at declarations of their kind; every registry entry is one of the
      subnets, declared under the name derived from its key; and the log is in an order
      the engine can follow (every declaration after all it needs). */
  ghost predicate WellFormed(st: State) {
    && st.router < |st.decls| && st.decls[st.router].kind == Router
    && st.network < |st.decls| && st.decls[st.network].kind == Network
    && (forall h :: h in st.subnets ==> h < |st.decls| && st.decls[h].kind == Subnet)
    && (forall h :: h in st.ports ==> h < |st.decls| && st.decls[h].kind == Port)
    && (forall n :: n in st.subnetMap ==>
          && st.subnetMap[n] in st.subnets
          && st.subnetMap[n] < |st.decls|
          && st.decls[st.subnetMap[n]].name == SubnetName(st.base, n))
    && Topological(st.decls)
  }

  lemma RefsOfLift(args: Args)
    ensures Refs(Lift(args)) == {}
  {
  }

  lemma RefsOfUpdate(p: Props, k: string, v: Value)
    ensures Refs(p[k := v]) <= Refs(p) + (if v.Id? then {v.handle} else {})
  {
  }

  lemma RefsOfRemove(p: Props, ks: set<string>)
    ensures Refs(p - ks) <= Refs(p)
  {
  }

  lemma InterfaceRefs(router: Handle, key: string, owner: Handle)
    ensures Refs(map["routerId" := Id(router), key := Id(owner)]) <= {router, owner}
  {
    var empty: Props := map[];
    assert Refs(empty) == {};
    RefsOfUpdate(empty, "routerId", Id(router));
    RefsOfUpdate(empty["routerId" := Id(router)], key, Id(owner));
  }

  /** The router needs nothing before it. */
  lemma RouterDeclPrereqs(base: string, config: RouterArgs)
    ensures Prereqs(RouterDecl(base, config)) == {}
  {
    RefsOfLift(config.rest);
    RefsOfRemove(Lift(config.rest), {"additionalPorts"});
    RefsOfUpdate(Lift(config.rest) - {"additionalPorts"}, "name", Lit(Str(RouterName(base))));
  }

  /** The network needs nothing before it. */
  lemma NetworkDeclPrereqs(base: string, config: NetworkArgs)
    ensures Prereqs(NetworkDecl(base, config)) == {}
  {
    RefsOfLift(config.rest);
    var p1 := Lift(config.rest)["name" := Lit(Str(NetworkName(base)))];
    var p2 := p1["routerConfig" := Undefined];
    var p3 := p2["subnets" := Undefined];
    RefsOfUpdate(Lift(config.rest), "name", Lit(Str(NetworkName(base))));
    RefsOfUpdate(p1, "routerConfig", Undefined);
    RefsOfUpdate(p2, "subnets", Undefined);
    RefsOfUpdate(p3, "routes", Undefined);
  }

  /** A subnet needs exactly the network. */
  lemma SubnetDeclPrereqs(base: string, s: SubnetArgs, network: Handle)
    ensures Prereqs(SubnetDecl(base, s, network)) == {network}
  {
    RefsOfLift(s.rest);
    RefsOfUpdate(Lift(s.rest), "name", Lit(Str(s.name)));
    RefsOfUpdate(SubnetObject(s), "name", Lit(Str(SubnetName(base, s.name))));
    RefsOfUpdate(SubnetObject(s)["name" := Lit(Str(SubnetName(base, s.name)))], "networkId", Id(network));
  }

  /** A port needs exactly the network it is created under, when its resolved target
      is that network or a supplied value. */
  lemma PortDeclPrereqs(base: string, p: PortArgs, network: Handle, target: Value)
    requires target.Id? ==> target.handle == network
    ensures Prereqs(PortDecl(base, p, network, target)) == {network}
  {
    var passthrough := Lift(p.rest - {"selfNetwork", "networkId"});
    RefsOfLift(p.rest - {"selfNetwork", "networkId"});
    var withFlag := if p.selfNetwork.Some? then passthrough["selfNetwork" := Lit(Flag(p.selfNetwork.value))] else passthrough;
    if p.selfNetwork.Some? {
      RefsOfUpdate(passthrough, "selfNetwork", Lit(Flag(p.selfNetwork.value)));
    }
    assert Refs(withFlag) == {};
    var withNet := if p.networkId.Some? then withFlag["networkId" := Lit(p.networkId.value)] else withFlag;
    if p.networkId.Some? {
      RefsOfUpdate(withFlag, "networkId", Lit(p.networkId.value));
    }
    assert Refs(withNet) == {};
    RefsOfUpdate(withNet, "name", Lit(Str(p.name)));
    assert PortObject(p) == withNet["name" := Lit(Str(p.name))];
    RefsOfUpdate(PortObject(p), "name", Lit(Str(PortName(base, p.name))));
    RefsOfUpdate(PortObject(p)["name" := Lit(Str(PortName(base, p.name)))], "networkId", target);
  }

  /** A router interface needs exactly the router and the subnet or port it attaches. */
  lemma InterfaceDeclPrereqs(base: string, s: SubnetArgs, p: PortArgs, router: Handle, owner: Handle)
    ensures Prereqs(SubnetInterfaceDecl(base, s, router, owner)) == {router, owner}
    ensures Prereqs(PortInterfaceDecl(base, p, router, owner)) == {router, owner}
  {
    InterfaceRefs(router, "subnetId", owner);
    InterfaceRefs(router, "portId", owner);
  }

  /** A route needs exactly the router and the declarations it explicitly depends on. */
  lemma RouteDeclPrereqs(base: string, r: RouteArgs, router: Handle, deps: seq<Handle>)
    ensures Prereqs(RouteDecl(base, r, router, deps)) == {router} + (set h | h in deps)
  {
    RefsOfLift(r.rest);
    RefsOfUpdate(Lift(r.rest), "description", Lit(Str(r.description)));
    RefsOfRemove(RouteObject(r), {"description"});
    RefsOfUpdate(RouteObject(r) - {"description"}, "routerId", Id(router));
  }

  /** Appending a declaration whose prerequisites are all in the log keeps it topological. */
  lemma TopologicalAppend(decls: seq<Decl>, d: Decl)
    requires Topological(decls)
    requires forall h :: h in Prereqs(d) ==> h < |decls|
    ensures Topological(decls + [d])
  {
    forall i, h | 0 <= i < |decls| + 1 && h in Prereqs((decls + [d])[i])
      ensures h < i
    {
      if i < |decls| {
        assert (decls + [d])[i] == decls[i];
      }
    }
  }

  lemma StartWellFormed(base: string, config: NetworkArgs)
    ensures WellFormed(Start(base, config))
  {
    var r := RouterDecl(base, config.routerConfig);
    var n := NetworkDecl(base, config);
    RouterDeclPrereqs(base, config.routerConfig);
    NetworkDeclPrereqs(base, config);
    TopologicalAppend([], r);
    TopologicalAppend([r], n);
    assert Start(base, config).decls == [r] + [n];
  }

  lemma AddSubnetWellFormed(st: State, s: SubnetArgs)
    requires WellFormed(st)
    ensures WellFormed(AddSubnet(st, s))
  {
    var at := |st.decls|;
    var sd := SubnetDecl(st.base, s, st.network);
    var id := SubnetInterfaceDecl(st.base, s, st.router, at);
    SubnetDeclPrereqs(st.base, s, st.network);
    TopologicalAppend(st.decls, sd);
    InterfaceDeclPrereqs(st.base, s, PortArgs(s.name, None, None, map[]), st.router, at);
    TopologicalAppend(st.decls + [sd], id);
    assert st.decls + [sd] + [id] == AddSubnet(st, s).decls;
  }

  lemma AddPortWellFormed(st: State, p: PortArgs)
    requires WellFormed(st)
    requires AddPort(st, p).Success?
    ensures WellFormed(AddPort(st, p).value)
  {
    var at := |st.decls|;
    var target := TargetNetwork(p, st.network).value;
    var pd := PortDecl(st.base, p, st.network, target);
    var id := PortInterfaceDecl(st.base, p, st.router, at);
    PortDeclPrereqs(st.base, p, st.network, target);
    TopologicalAppend(st.decls, pd);
    InterfaceDeclPrereqs(st.base, SubnetArgs(p.name, map[]), p, st.router, at);
    TopologicalAppend(st.decls + [pd], id);
    assert st.decls + [pd] + [id] == AddPort(st, p).value.decls;
  }

  lemma AddRouteWellFormed(st: State, r: RouteArgs)
    requires WellFormed(st)
    ensures WellFormed(AddRoute(st, r))
  {
    RouteDeclPrereqs(st.base, r, st.router, st.subnets + st.ports);
    TopologicalAppend(st.decls, RouteDecl(st.base, r, st.router, st.subnets + st.ports));
  }

  lemma {:induction false} DeclareSubnetsWellFormed(st: State, subs: seq<SubnetArgs>)
    requires WellFormed(st)
    ensures WellFormed(DeclareSubnets(st, subs))
    decreases |subs|
  {
    if |subs| > 0 {
      DeclareSubnetsWellFormed(st, subs[..|subs| - 1]);
      AddSubnetWellFormed(DeclareSubnets(st, subs[..|subs| - 1]), subs[|subs| - 1]);
    }
  }

  lemma {:induction false} DeclarePortsWellFormed(st: State, ports: seq<PortArgs>)
    requires WellFormed(st)
    ensures WellFormed(DeclarePorts(st, ports).state)
    decreases |ports|
  {
    if |ports| > 0 {
      var prior := DeclarePorts(st, ports[..|ports| - 1]);
      DeclarePortsWellFormed(st, ports[..|ports| - 1]);
      if prior.failure.None? && AddPort(prior.state, ports[|ports| - 1]).Success? {
        AddPortWellFormed(prior.state, ports[|ports| - 1]);
      }
    }
  }

  lemma {:induction false} DeclareRoutesWellFormed(st: State, routes: seq<RouteArgs>)
    requires WellFormed(st)
    ensures WellFormed(DeclareRoutes(st, routes))
    decreases |routes|
  {
    if |routes| > 0 {
      DeclareRoutesWellFormed(st, routes[..|routes| - 1]);
      AddRouteWellFormed(DeclareRoutes(st, routes[..|routes| - 1]), routes[|routes| - 1]);
    }
  }

  /** Whatever the configuration, and whether or not construction is interrupted, the
      state reached is well formed; in particular the declaration log is topologically
      ordered: every `dependsOn` entry, every parent and every resource whose id a
      declaration carries is declared before it. */
  lemma BuildWellFormed(name: string, args: ComponentArgs)
    ensures WellFormed(Build(name, args).state)
  {
    var config := args.networkConfig;
    StartWellFormed(name, config);
    DeclareSubnetsWellFormed(Start(name, config), SubnetList(config));
    var withSubnets := DeclareSubnets(Start(name, config), SubnetList(config));
    DeclarePortsWellFormed(withSubnets, PortList(config));
    var withPorts := DeclarePorts(withSubnets, PortList(config));
    if withPorts.failure.None? {
      DeclareRoutesWellFormed(withPorts.state, RouteList(config));
    }
  }
}

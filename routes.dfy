/** When a static route may be created relative to the router interfaces. The
    configuration's documentation asks for routes to be added once at least one
    interface is present on the router. As written, a route's prerequisites are the
    router, the subnets and the ports, none of which needs an interface, so the
    engine may create a route before, or alongside, every interface. The corrected
    route loop also depends on each subnet's and port's interface. */
module RouteOrdering {
  import opened Wrappers
  import opened Resources
  import opened Builder
  import opened Layout
  import opened BuildProperties

  /** The declaration at position `i` needs the one at `h`, directly or through a chain
      of prerequisites. */
  ghost predicate Reaches(decls: seq<Decl>, i: nat, h: nat)
    decreases i
  {
    i < |decls| && exists g :: g in Prereqs(decls[i]) && g < i && (g == h || Reaches(decls, g, h))
  }

  /** Only interfaces need interfaces: every other declaration's direct prerequisites
      are declarations of other types. */
  ghost predicate InterfacesUnneeded(decls: seq<Decl>) {
    forall i, h :: 0 <= i < |decls| && decls[i].kind != RouterInterface && h in Prereqs(decls[i]) ==>
      h < |decls| && decls[h].kind != RouterInterface
  }

  /** In such a log, a declaration other than an interface reaches no interface. */
  lemma {:induction false} NoInterfaceReached(decls: seq<Decl>, i: nat, h: nat)
    requires InterfacesUnneeded(decls)
    requires i < |decls| && decls[i].kind != RouterInterface
    requires Reaches(decls, i, h)
    ensures h < i && decls[h].kind != RouterInterface
    decreases i
  {
    var g :| g in Prereqs(decls[i]) && g < i && (g == h || Reaches(decls, g, h));
    if g != h {
      NoInterfaceReached(decls, g, h);
    }
  }

  lemma StartUnneeded(base: string, config: NetworkArgs)
    ensures InterfacesUnneeded(Start(base, config).decls)
  {
    RouterDeclPrereqs(base, config.routerConfig);
    NetworkDeclPrereqs(base, config);
  }

  lemma AddSubnetUnneeded(st: State, s: SubnetArgs)
    requires WellFormed(st) && InterfacesUnneeded(st.decls)
    ensures InterfacesUnneeded(AddSubnet(st, s).decls)
  {
    var r := AddSubnet(st, s).decls;
    SubnetDeclPrereqs(st.base, s, st.network);
    forall i, h | 0 <= i < |r| && r[i].kind != RouterInterface && h in Prereqs(r[i])
      ensures h < |r| && r[h].kind != RouterInterface
    {
      if i < |st.decls| {
        assert r[i] == st.decls[i];
        assert r[h] == st.decls[h];
      } else {
        assert h == st.network;
        assert r[h] == st.decls[h];
      }
    }
  }

  lemma AddPortUnneeded(st: State, p: PortArgs)
    requires WellFormed(st) && InterfacesUnneeded(st.decls)
    requires AddPort(st, p).Success?
    ensures InterfacesUnneeded(AddPort(st, p).value.decls)
  {
    var r := AddPort(st, p).value.decls;
    PortDeclPrereqs(st.base, p, st.network, TargetNetwork(p, st.network).value);
    forall i, h | 0 <= i < |r| && r[i].kind != RouterInterface && h in Prereqs(r[i])
      ensures h < |r| && r[h].kind != RouterInterface
    {
      if i < |st.decls| {
        assert r[i] == st.decls[i];
        assert r[h] == st.decls[h];
      } else {
        assert h == st.network;
        assert r[h] == st.decls[h];
      }
    }
  }

  lemma AddRouteUnneeded(st: State, r: RouteArgs)
    requires WellFormed(st) && InterfacesUnneeded(st.decls)
    ensures InterfacesUnneeded(AddRoute(st, r).decls)
  {
    var d := AddRoute(st, r).decls;
    RouteDeclPrereqs(st.base, r, st.router, st.subnets + st.ports);
    forall i, h | 0 <= i < |d| && d[i].kind != RouterInterface && h in Prereqs(d[i])
      ensures h < |d| && d[h].kind != RouterInterface
    {
      if i < |st.decls| {
        assert d[i] == st.decls[i];
        assert d[h] == st.decls[h];
      } else {
        assert h == st.router || h in st.subnets || h in st.ports;
        assert d[h] == st.decls[h];
      }
    }
  }

  lemma {:induction false} DeclareSubnetsUnneeded(st: State, subs: seq<SubnetArgs>)
    requires WellFormed(st) && InterfacesUnneeded(st.decls)
    ensures InterfacesUnneeded(DeclareSubnets(st, subs).decls)
    decreases |subs|
  {
    if |subs| > 0 {
      var init := subs[..|subs| - 1];
      DeclareSubnetsUnneeded(st, init);
      DeclareSubnetsWellFormed(st, init);
      AddSubnetUnneeded(DeclareSubnets(st, init), subs[|subs| - 1]);
    }
  }

  lemma {:induction false} DeclarePortsUnneeded(st: State, ports: seq<PortArgs>)
    requires WellFormed(st) && InterfacesUnneeded(st.decls)
    ensures InterfacesUnneeded(DeclarePorts(st, ports).state.decls)
    decreases |ports|
  {
    if |ports| > 0 {
      var init := ports[..|ports| - 1];
      var prior := DeclarePorts(st, init);
      DeclarePortsUnneeded(st, init);
      DeclarePortsWellFormed(st, init);
      if prior.failure.None? && AddPort(prior.state, ports[|ports| - 1]).Success? {
        AddPortUnneeded(prior.state, ports[|ports| - 1]);
      }
    }
  }

  lemma {:induction false} DeclareRoutesUnneeded(st: State, routes: seq<RouteArgs>)
    requires WellFormed(st) && InterfacesUnneeded(st.decls)
    ensures InterfacesUnneeded(DeclareRoutes(st, routes).decls)
    decreases |routes|
  {
    if |routes| > 0 {
      var init := routes[..|routes| - 1];
      DeclareRoutesUnneeded(st, init);
      DeclareRoutesWellFormed(st, init);
      AddRouteUnneeded(DeclareRoutes(st, init), routes[|routes| - 1]);
    }
  }

  /** As written, no declaration of the constructed log other than an interface needs
      an interface directly. */
  lemma BuildUnneeded(name: string, args: ComponentArgs)
    ensures InterfacesUnneeded(Build(name, args).state.decls)
  {
    var config := args.networkConfig;
    var s0 := Start(name, config);
    StartWellFormed(name, config);
    StartUnneeded(name, config);
    DeclareSubnetsUnneeded(s0, SubnetList(config));
    DeclareSubnetsWellFormed(s0, SubnetList(config));
    var s1 := DeclareSubnets(s0, SubnetList(config));
    DeclarePortsUnneeded(s1, PortList(config));
    DeclarePortsWellFormed(s1, PortList(config));
    var run := DeclarePorts(s1, PortList(config));
    if run.failure.None? {
      DeclareRoutesUnneeded(run.state, RouteList(config));
    }
  }

  /** As written, a route needs no router interface, not even through a chain of
      prerequisites: nothing makes the engine create it after any interface. */
  lemma RoutesNeedNoInterface(name: string, args: ComponentArgs, at: nat, h: nat)
    requires var d := Build(name, args).state.decls; at < |d| && d[at].kind == RouterRoute
    requires Reaches(Build(name, args).state.decls, at, h)
    ensures h < at && Build(name, args).state.decls[h].kind != RouterInterface
  {
    BuildUnneeded(name, args);
    NoInterfaceReached(Build(name, args).state.decls, at, h);
  }

  /** The input that shows it: with one subnet, no extra port and one route, position 3
      holds the subnet's interface, and the route at position 4 does not reach it. */
  lemma RouteSkipsTheInterface(name: string, args: ComponentArgs)
    requires |SubnetList(args.networkConfig)| == 1
    requires PortList(args.networkConfig) == []
    requires |RouteList(args.networkConfig)| == 1
    ensures var d := Build(name, args).state.decls;
      && |d| == 5 && d[3].kind == RouterInterface && d[4].kind == RouterRoute
      && !Reaches(d, 4, 3)
  {
    var d := Build(name, args).state.decls;
    BuildHandles(name, args);
    LogLength(name, args);
    SubnetDeclAt(name, args, 0);
    RouteDeclAt(name, args, 0);
    assert d[4].kind == RouterRoute;
    if Reaches(d, 4, 3) {
      RoutesNeedNoInterface(name, args, 4, 3);
    }
  }

  /** The router interfaces of the given subnets or ports: each is declared right after
      its owner. */
  function Attachments(owners: seq<Handle>): (r: seq<Handle>)
    ensures |r| == |owners|
    ensures forall i :: 0 <= i < |owners| ==> r[i] == owners[i] + 1
  {
    seq(|owners|, i requires 0 <= i < |owners| => owners[i] + 1)
  }

  /** `createRoute` as intended: the route also depends on the interface of every subnet
      and port declared so far, so it is created only once they are attached. */
  function AddRouteIntended(st: State, r: RouteArgs): State {
    var owners := st.subnets + st.ports;
    st.(decls := st.decls + [RouteDecl(st.base, r, st.router, owners + Attachments(owners))])
  }

  /** The corrected route loop. */
  function DeclareRoutesIntended(st: State, routes: seq<RouteArgs>): State
    decreases |routes|
  {
    if |routes| == 0 then st
    else AddRouteIntended(DeclareRoutesIntended(st, routes[..|routes| - 1]), routes[|routes| - 1])
  }

  /** The corrected constructor: the same router, network, subnet and port phases, then
      the corrected route loop. */
  function BuildIntended(name: string, args: ComponentArgs): Run {
    var withPorts := AfterPorts(name, args);
    if withPorts.failure.Some? then withPorts
    else Run(DeclareRoutesIntended(withPorts.state, RouteList(args.networkConfig)), None)
  }

  /** Every subnet and port is followed by its router interface. */
  ghost predicate Attached(st: State) {
    forall h :: h in st.subnets + st.ports ==> h + 1 < |st.decls| && st.decls[h + 1].kind == RouterInterface
  }

  /** Every route depends on some router interface declared before it. */
  ghost predicate RoutesWait(decls: seq<Decl>) {
    forall i :: 0 <= i < |decls| && decls[i].kind == RouterRoute ==>
      exists h :: h in decls[i].dependsOn && h < i && decls[h].kind == RouterInterface
  }

  lemma AddSubnetWaits(st: State, s: SubnetArgs)
    requires Attached(st) && RoutesWait(st.decls)
    ensures Attached(AddSubnet(st, s)) && RoutesWait(AddSubnet(st, s).decls)
  {
    var r := AddSubnet(st, s);
    forall h | h in r.subnets + r.ports ensures h + 1 < |r.decls| && r.decls[h + 1].kind == RouterInterface {
      if h in st.subnets + st.ports {
        assert r.decls[h + 1] == st.decls[h + 1];
      }
    }
    forall i | 0 <= i < |r.decls| && r.decls[i].kind == RouterRoute
      ensures exists h :: h in r.decls[i].dependsOn && h < i && r.decls[h].kind == RouterInterface
    {
      assert r.decls[i] == st.decls[i];
      var h :| h in st.decls[i].dependsOn && h < i && st.decls[h].kind == RouterInterface;
      assert r.decls[h] == st.decls[h];
    }
  }

  lemma AddPortWaits(st: State, p: PortArgs)
    requires Attached(st) && RoutesWait(st.decls)
    requires AddPort(st, p).Success?
    ensures Attached(AddPort(st, p).value) && RoutesWait(AddPort(st, p).value.decls)
  {
    var r := AddPort(st, p).value;
    forall h | h in r.subnets + r.ports ensures h + 1 < |r.decls| && r.decls[h + 1].kind == RouterInterface {
      if h in st.subnets + st.ports {
        assert r.decls[h + 1] == st.decls[h + 1];
      }
    }
    forall i | 0 <= i < |r.decls| && r.decls[i].kind == RouterRoute
      ensures exists h :: h in r.decls[i].dependsOn && h < i && r.decls[h].kind == RouterInterface
    {
      assert r.decls[i] == st.decls[i];
      var h :| h in st.decls[i].dependsOn && h < i && st.decls[h].kind == RouterInterface;
      assert r.decls[h] == st.decls[h];
    }
  }

  /** A corrected route appended when some subnet or port exists waits for its interface. */
  lemma AddRouteIntendedWaits(st: State, r: RouteArgs)
    requires Attached(st) && RoutesWait(st.decls)
    requires |st.subnets| + |st.ports| > 0
    ensures Attached(AddRouteIntended(st, r)) && RoutesWait(AddRouteIntended(st, r).decls)
  {
    var n := AddRouteIntended(st, r);
    var owners := st.subnets + st.ports;
    forall h | h in n.subnets + n.ports ensures h + 1 < |n.decls| && n.decls[h + 1].kind == RouterInterface {
      assert n.decls[h + 1] == st.decls[h + 1];
    }
    forall i | 0 <= i < |n.decls| && n.decls[i].kind == RouterRoute
      ensures exists h :: h in n.decls[i].dependsOn && h < i && n.decls[h].kind == RouterInterface
    {
      if i < |st.decls| {
        assert n.decls[i] == st.decls[i];
        var h :| h in st.decls[i].dependsOn && h < i && st.decls[h].kind == RouterInterface;
        assert n.decls[h] == st.decls[h];
      } else {
        var w := owners[0] + 1;
        assert owners[0] in owners;
        assert w == (owners + Attachments(owners))[|owners|];
        assert w in n.decls[i].dependsOn;
        assert n.decls[w] == st.decls[w];
      }
    }
  }

  lemma {:induction false} DeclareSubnetsWait(st: State, subs: seq<SubnetArgs>)
    requires Attached(st) && RoutesWait(st.decls)
    ensures Attached(DeclareSubnets(st, subs)) && RoutesWait(DeclareSubnets(st, subs).decls)
    decreases |subs|
  {
    if |subs| > 0 {
      DeclareSubnetsWait(st, subs[..|subs| - 1]);
      AddSubnetWaits(DeclareSubnets(st, subs[..|subs| - 1]), subs[|subs| - 1]);
    }
  }

  lemma {:induction false} DeclarePortsWait(st: State, ports: seq<PortArgs>)
    requires Attached(st) && RoutesWait(st.decls)
    ensures Attached(DeclarePorts(st, ports).state) && RoutesWait(DeclarePorts(st, ports).state.decls)
    decreases |ports|
  {
    if |ports| > 0 {
      var prior := DeclarePorts(st, ports[..|ports| - 1]);
      DeclarePortsWait(st, ports[..|ports| - 1]);
      if prior.failure.None? && AddPort(prior.state, ports[|ports| - 1]).Success? {
        AddPortWaits(prior.state, ports[|ports| - 1]);
      }
    }
  }

  lemma {:induction false} DeclareRoutesIntendedWait(st: State, routes: seq<RouteArgs>)
    requires Attached(st) && RoutesWait(st.decls)
    requires |st.subnets| + |st.ports| > 0
    ensures var r := DeclareRoutesIntended(st, routes);
      && r.subnets == st.subnets && r.ports == st.ports
      && Attached(r) && RoutesWait(r.decls)
    decreases |routes|
  {
    if |routes| > 0 {
      DeclareRoutesIntendedWait(st, routes[..|routes| - 1]);
      AddRouteIntendedWaits(DeclareRoutesIntended(st, routes[..|routes| - 1]), routes[|routes| - 1]);
    }
  }

  /** The subnet and port phases declare no route and leave every subnet and port
      followed by its interface. */
  lemma PhasesBeforeRoutesWait(name: string, args: ComponentArgs)
    ensures var st := AfterPorts(name, args).state; Attached(st) && RoutesWait(st.decls)
  {
    var s0 := Start(name, args.networkConfig);
    assert Attached(s0) && RoutesWait(s0.decls);
    DeclareSubnetsWait(s0, SubnetList(args.networkConfig));
    DeclarePortsWait(AfterSubnets(name, args), PortList(args.networkConfig));
  }

  /** Corrected: when at least one subnet or port is configured, every route depends on
      a router interface declared before it, so it is created only once an interface
      is attached to the router. */
  lemma RoutesFollowAnInterface(name: string, args: ComponentArgs, at: nat)
    requires |SubnetList(args.networkConfig)| + |PortList(args.networkConfig)| > 0
    requires var d := BuildIntended(name, args).state.decls; at < |d| && d[at].kind == RouterRoute
    ensures var d := BuildIntended(name, args).state.decls;
      exists h :: h in d[at].dependsOn && h < at && d[h].kind == RouterInterface
  {
    var run := AfterPorts(name, args);
    PhasesBeforeRoutesWait(name, args);
    if run.failure.None? {
      AfterSubnetsHandles(name, args);
      AfterPortsLayout(name, args);
      DeclareRoutesIntendedWait(run.state, RouteList(args.networkConfig));
    }
  }
}

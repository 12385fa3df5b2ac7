/** The `Network` component as the object the constructor builds step by step: its
    fields, the three private methods the constructor loops over, and the two public
    lookups. Each method is proved to perform exactly the matching state transformer of
    the Builder module, so everything proved about `Build` holds of the object. */
module NetworkComponent {
  import opened Wrappers
  import opened Resources
  import opened Naming
  import opened Builder
  import opened Layout
  import opened BuildProperties

  /** The outputs the component registers once construction completes. */
  datatype Outputs = Outputs(routerId: Handle, networkId: Handle, subnetIds: seq<Handle>, portIds: seq<Handle>)

  /** The members of `Object.prototype`: a property read on a plain `{}` object finds
      them even though the object itself has no such key. */
  const ObjectPrototypeKeys: set<string> := {
    "constructor", "hasOwnProperty", "isPrototypeOf", "propertyIsEnumerable",
    "toLocaleString", "toString", "valueOf", "__proto__",
    "__defineGetter__", "__defineSetter__", "__lookupGetter__", "__lookupSetter__"
  }

  class Network {
    const baseName: string
    const router: Handle
    const network: Handle
    /** Every declaration handed to the provisioning engine, in order. */
    var decls: seq<Decl>
    var subnets: seq<Handle>
    var ports: seq<Handle>
    var subnetMap: map<string, Handle>
    /** The error the constructor threw, if it threw. */
    var thrown: Option<Error>
    /** What `registerOutputs` received, once it ran. */
    var registered: Option<Outputs>

    function Snapshot(): State
      reads this
    {
      State(baseName, router, network, decls, subnets, ports, subnetMap)
    }

    ghost predicate Valid()
      reads this
    {
      WellFormed(Snapshot())
    }

    /** Declares the router (without `additionalPorts`) and the network, then every
        subnet, every extra port and every route, in that order; a port whose network
        cannot be resolved throws, which ends construction before the routes and
        before the outputs are registered. */
    constructor (name: string, args: ComponentArgs)
      ensures Snapshot() == Build(name, args).state
      ensures thrown == Build(name, args).failure
      ensures registered == (if thrown.None? then Some(Outputs(router, network, subnets, ports)) else None)
      ensures Valid()
    {
      var config := args.networkConfig;
      baseName := name;
      router := 0;
      network := 1;
      decls := [RouterDecl(name, config.routerConfig), NetworkDecl(name, config)];
      subnets := [];
      ports := [];
      subnetMap := map[];
      thrown := None;
      registered := None;
      new;
      StartWellFormed(name, config);
      DeclareSubnetList(SubnetList(config));
      var err := DeclarePortList(PortList(config));
      if err.Some? {
        thrown := err;
        return;
      }
      DeclareRouteList(RouteList(config));
      registered := Some(Outputs(router, network, SubnetIds(), PortIds()));
    }

    /** The subnet loop of the constructor: `createSubnet` for each subnet, in order. */
    method DeclareSubnetList(subs: seq<SubnetArgs>)
      requires Valid()
      modifies this
      ensures Snapshot() == DeclareSubnets(old(Snapshot()), subs)
      ensures thrown == old(thrown) && registered == old(registered)
      ensures Valid()
    {
      ghost var start := Snapshot();
      var i := 0;
      while i < |subs|
        invariant 0 <= i <= |subs|
        invariant Snapshot() == DeclareSubnets(start, subs[..i])
        invariant thrown == old(thrown) && registered == old(registered)
        invariant Valid()
      {
        ghost var before := Snapshot();
        CreateSubnet(subs[i]);
        assert subs[..i + 1][..i] == subs[..i];
        assert Snapshot() == AddSubnet(before, subs[i]);
        i := i + 1;
      }
      assert subs[..i] == subs;
    }

    /** The port loop of the constructor: `createAdditionalPort` for each extra port, in
        order, stopping at the first one that throws and returning its error. */
    method DeclarePortList(extra: seq<PortArgs>) returns (err: Option<Error>)
      requires Valid()
      modifies this
      ensures Run(Snapshot(), err) == DeclarePorts(old(Snapshot()), extra)
      ensures thrown == old(thrown) && registered == old(registered)
      ensures Valid()
    {
      ghost var start := Snapshot();
      err := None;
      var j := 0;
      while j < |extra| && err.None?
        invariant 0 <= j <= |extra|
        invariant Run(Snapshot(), err) == DeclarePorts(start, extra[..j])
        invariant thrown == old(thrown) && registered == old(registered)
        invariant Valid()
      {
        assert extra[..j + 1][..j] == extra[..j];
        err := CreateAdditionalPort(extra[j]);
        j := j + 1;
      }
      if err.Some? {
        DeclarePortsFailurePersists(start, extra, j);
      } else {
        assert extra[..j] == extra;
      }
    }

    /** The route loop of the constructor: `createRoute` for each route, in order. */
    method DeclareRouteList(routes: seq<RouteArgs>)
      requires Valid()
      modifies this
      ensures Snapshot() == DeclareRoutes(old(Snapshot()), routes)
      ensures thrown == old(thrown) && registered == old(registered)
      ensures Valid()
    {
      ghost var start := Snapshot();
      var q := 0;
      while q < |routes|
        invariant 0 <= q <= |routes|
        invariant Snapshot() == DeclareRoutes(start, routes[..q])
        invariant thrown == old(thrown) && registered == old(registered)
        invariant Valid()
      {
        ghost var before := Snapshot();
        CreateRoute(routes[q]);
        assert routes[..q + 1][..q] == routes[..q];
        assert Snapshot() == AddRoute(before, routes[q]);
        q := q + 1;
      }
      assert routes[..q] == routes;
    }

    /** `createSubnet`: declares the subnet in the component's network, appends it to
        `subnets`, registers it under its logical name, and attaches it to the router. */
    method CreateSubnet(s: SubnetArgs)
      requires Valid()
      modifies this
      ensures Snapshot() == AddSubnet(old(Snapshot()), s)
      ensures thrown == old(thrown) && registered == old(registered)
      ensures Valid()
    {
      AddSubnetWellFormed(Snapshot(), s);
      var at := |decls|;
      decls := decls + [SubnetDecl(baseName, s, network)];
      subnets := subnets + [at];
      subnetMap := subnetMap[s.name := at];
      decls := decls + [SubnetInterfaceDecl(baseName, s, router, at)];
    }

    /** `createAdditionalPort`: resolves the port's network or returns the error it
        throws, leaving the object as it was; otherwise declares the port, appends it
        to `ports`, and attaches it to the router. */
    method CreateAdditionalPort(p: PortArgs) returns (err: Option<Error>)
      requires Valid()
      modifies this
      ensures match AddPort(old(Snapshot()), p)
        case Success(next) => Snapshot() == next && err == None
        case Failure(e) => Snapshot() == old(Snapshot()) && err == Some(e)
      ensures err.Some? ==> err.value == MissingNetworkId(p.name)
      ensures thrown == old(thrown) && registered == old(registered)
      ensures Valid()
    {
      var target := TargetNetwork(p, network);
      if target.Failure? {
        return Some(target.error);
      }
      AddPortWellFormed(Snapshot(), p);
      var at := |decls|;
      decls := decls + [PortDecl(baseName, p, network, target.value)];
      ports := ports + [at];
      decls := decls + [PortInterfaceDecl(baseName, p, router, at)];
      err := None;
    }

    /** `createRoute`: declares the route on the router, depending on every subnet and
        port declared so far. */
    method CreateRoute(r: RouteArgs)
      requires Valid()
      modifies this
      ensures Snapshot() == AddRoute(old(Snapshot()), r)
      ensures thrown == old(thrown) && registered == old(registered)
      ensures Valid()
    {
      AddRouteWellFormed(Snapshot(), r);
      decls := decls + [RouteDecl(baseName, r, router, subnets + ports)];
    }

    /** `subnetId`: the subnet registered under a logical name, or the error naming the
        subnet and the component. Only the registry's own entries count. */
    function SubnetId(name: string): (r: Result<Handle, Error>)
      reads this
      ensures r.Success? <==> name in subnetMap
      ensures r.Success? ==> r.value == subnetMap[name]
      ensures Valid() && r.Success? ==>
        && r.value in subnets && r.value < |decls|
        && decls[r.value].kind == Subnet && decls[r.value].name == SubnetName(baseName, name)
      ensures r.Failure? ==> r.error == SubnetNotFound(name, baseName)
    {
      if name in subnetMap then Success(subnetMap[name])
      else Failure(SubnetNotFound(name, baseName))
    }

    /** `subnetId` as written: `subnetMap` is a plain object literal, so a read of a
        name it does not hold falls through to `Object.prototype`; for those names the
        found member is truthy, the check passes, and its `id` is `undefined`. */
    function SubnetIdAsWritten(name: string): (r: Result<Value, Error>)
      reads this
      ensures name in subnetMap ==> r == Success(Id(subnetMap[name]))
      ensures name !in subnetMap && name in ObjectPrototypeKeys ==> r == Success(Undefined)
      ensures r.Failure? <==> name !in subnetMap && name !in ObjectPrototypeKeys
      ensures r.Failure? ==> r.error == SubnetNotFound(name, baseName)
    {
      if name in subnetMap then Success(Id(subnetMap[name]))
      else if name in ObjectPrototypeKeys then Success(Undefined)
      else Failure(SubnetNotFound(name, baseName))
    }

    /** `subnetIds`: the ids of all subnets, in declaration order. */
    function SubnetIds(): (r: seq<Handle>)
      reads this
      ensures |r| == |subnets|
      ensures forall i :: 0 <= i < |r| ==> r[i] == subnets[i]
      ensures Valid() ==> forall h :: h in r ==> h < |decls| && decls[h].kind == Subnet
    {
      subnets
    }

    /** The `portIds` output: the ids of all extra ports, in declaration order. */
    function PortIds(): (r: seq<Handle>)
      reads this
      ensures |r| == |ports|
      ensures forall j :: 0 <= j < |r| ==> r[j] == ports[j]
      ensures Valid() ==> forall h :: h in r ==> h < |decls| && decls[h].kind == Port
    {
      ports
    }
  }

  /** On a constructed component, `subnetId` answers for exactly the configured logical
      names, with the subnet configured last under the name, and otherwise throws the
      error naming the subnet and the component. */
  lemma SubnetIdAfterConstruction(c: Network, name: string, args: ComponentArgs, n: string)
    requires c.Snapshot() == Build(name, args).state
    ensures var subs := SubnetList(args.networkConfig); var r := c.SubnetId(n);
      && (r.Success? <==> exists i :: 0 <= i < |subs| && subs[i].name == n)
      && (r.Success? ==>
            && 0 <= LastNamed(subs, n) < |c.subnets|
            && r.value == c.subnets[LastNamed(subs, n)]
            && r.value < |c.decls|
            && c.decls[r.value] == SubnetDecl(name, subs[LastNamed(subs, n)], 1))
      && (r.Failure? ==>
            Message(r.error) == "Subnet \"" + n + "\" not found in component \"" + name + "\".")
  {
    var subs := SubnetList(args.networkConfig);
    SubnetRegistry(name, args, n);
    BuildHandles(name, args);
    if n in c.subnetMap {
      SubnetDeclAt(name, args, LastNamed(subs, n));
    }
  }

  /** On a constructed component, `subnetIds` lists one subnet per configured subnet, in
      configuration order, each declared under the name derived from its logical name. */
  lemma SubnetIdsAfterConstruction(c: Network, name: string, args: ComponentArgs)
    requires c.Snapshot() == Build(name, args).state
    ensures var subs := SubnetList(args.networkConfig); var ids := c.SubnetIds();
      && |ids| == |subs|
      && (forall i :: 0 <= i < |subs| ==>
            ids[i] == SubnetAt(i) && ids[i] < |c.decls| && c.decls[ids[i]] == SubnetDecl(name, subs[i], 1))
  {
    var subs := SubnetList(args.networkConfig);
    BuildHandles(name, args);
    forall i | 0 <= i < |subs|
      ensures c.SubnetIds()[i] == SubnetAt(i) && c.SubnetIds()[i] < |c.decls| && c.decls[c.SubnetIds()[i]] == SubnetDecl(name, subs[i], 1)
    {
      SubnetDeclAt(name, args, i);
    }
  }

  /** On a constructed component, the `portIds` output lists the extra ports that were
      declared (all of them, unless one could not be resolved), in configuration order. */
  lemma PortIdsAfterConstruction(c: Network, name: string, args: ComponentArgs)
    requires c.Snapshot() == Build(name, args).state
    ensures var ports := PortList(args.networkConfig); var k := FirstUnresolved(ports, 1);
      var ids := c.PortIds();
      && |ids| == k
      && (Build(name, args).failure.None? ==> k == |ports|)
      && (forall j :: 0 <= j < k ==>
            && ids[j] == PortAt(|SubnetList(args.networkConfig)|, j) && ids[j] < |c.decls|
            && c.decls[ids[j]].kind == Port
            && c.decls[ids[j]].name == PortName(name, ports[j].name))
  {
    var ports := PortList(args.networkConfig);
    var k := FirstUnresolved(ports, 1);
    BuildHandles(name, args);
    forall j | 0 <= j < k
      ensures c.PortIds()[j] == PortAt(|SubnetList(args.networkConfig)|, j) && c.PortIds()[j] < |c.decls|
      ensures c.decls[c.PortIds()[j]].kind == Port && c.decls[c.PortIds()[j]].name == PortName(name, ports[j].name)
    {
      PortDeclAt(name, args, j);
    }
  }

  /** The discrepancy: on a constructed component whose subnets do not use the name
      "constructor", `subnetId("constructor")` as written returns `undefined` instead
      of throwing, while the own-key lookup throws the documented error. */
  lemma PrototypeNameAnswersUndefined(c: Network, name: string, args: ComponentArgs)
    requires c.Snapshot() == Build(name, args).state
    requires forall i :: 0 <= i < |SubnetList(args.networkConfig)| ==>
      SubnetList(args.networkConfig)[i].name != "constructor"
    ensures c.SubnetIdAsWritten("constructor") == Success(Undefined)
    ensures c.SubnetId("constructor") == Failure(SubnetNotFound("constructor", name))
  {
    SubnetRegistry(name, args, "constructor");
    BuildHandles(name, args);
  }

  /** A component named "demo" with one subnet "a" and one default route. */
  function DemoArgs(): ComponentArgs {
    var subnet := SubnetArgs("a", map["cidr" := Str("10.0.0.0/24")]);
    var route := RouteArgs("default", map["destinationCidr" := Str("0.0.0.0/0"), "nextHop" := Str("10.0.0.1")]);
    ComponentArgs(NetworkArgs(RouterArgs(None, map[]), Some([subnet]), Some([route]), map[]))
  }

  /** A component with one subnet, no extra port and one route declares its router,
      its network, the subnet and that subnet's interface, then the route, which
      depends on the subnet alone; `subnetIds` lists that subnet, and `subnetId`
      answers with it for the subnet's logical name. */
  lemma OneSubnetOneRoute(c: Network, name: string, args: ComponentArgs)
    requires |SubnetList(args.networkConfig)| == 1
    requires PortList(args.networkConfig) == []
    requires |RouteList(args.networkConfig)| == 1
    requires c.Snapshot() == Build(name, args).state
    ensures var sub := SubnetList(args.networkConfig)[0]; var route := RouteList(args.networkConfig)[0];
      && |c.decls| == 5
      && c.decls[0].kind == Router && c.decls[0].name == name + "-router"
      && c.decls[1].kind == Network && c.decls[1].name == name + "-net"
      && c.decls[2].kind == Subnet && c.decls[2].name == name + "-subnet-" + sub.name
      && c.decls[3].kind == RouterInterface && c.decls[3].name == name + "-subnet-" + sub.name + "-if"
      && c.decls[4].kind == RouterRoute && c.decls[4].name == name + "-route-" + route.description
      && c.decls[4].dependsOn == [2]
      && c.SubnetIds() == [2] && c.SubnetId(sub.name) == Success(2)
  {
    var subs := SubnetList(args.networkConfig);
    BuildHandles(name, args);
    HeadDeclsAt(name, args);
    SubnetDeclAt(name, args, 0);
    LogLength(name, args);
    RouteDeclAt(name, args, 0);
    SubnetRegistry(name, args, subs[0].name);
    assert LastNamed(subs, subs[0].name) == 0;
  }

  /** The demo component declares its router, its network, subnet "demo-subnet-a" and
      that subnet's interface, then route "demo-route-default", which depends on the
      subnet; `subnetIds` has that one subnet and `subnetId("a")` answers with it. */
  lemma DemoScenario(c: Network, name: string, args: ComponentArgs)
    requires name == "demo" && args == DemoArgs()
    requires c.Snapshot() == Build(name, args).state
    ensures |c.decls| == 5
    ensures c.decls[0].kind == Router && c.decls[0].name == "demo-router"
    ensures c.decls[1].kind == Network && c.decls[1].name == "demo-net"
    ensures c.decls[2].kind == Subnet && c.decls[2].name == "demo-subnet-a"
    ensures c.decls[3].kind == RouterInterface && c.decls[3].name == "demo-subnet-a-if"
    ensures c.decls[4].kind == RouterRoute && c.decls[4].name == "demo-route-default"
    ensures c.decls[4].dependsOn == [2]
    ensures c.SubnetIds() == [2] && c.SubnetId("a") == Success(2)
  {
    var config := args.networkConfig;
    assert |SubnetList(config)| == 1 && SubnetList(config)[0].name == "a";
    assert |RouteList(config)| == 1 && RouteList(config)[0].description == "default";
    assert PortList(config) == [];
    OneSubnetOneRoute(c, name, args);
    DemoNames(name);
  }

  lemma DemoNames(name: string)
    requires name == "demo"
    ensures name + "-router" == "demo-router" && name + "-net" == "demo-net"
    ensures name + "-subnet-" + "a" == "demo-subnet-a" && name + "-subnet-" + "a" + "-if" == "demo-subnet-a-if"
    ensures name + "-route-" + "default" == "demo-route-default"
  {
  }
}

/** When the names the component derives collide. The engine identifies a resource
    by its type and name, and the component does not check its configuration for
    repeated logical names, so two declarations of one type under one name reach the
    engine exactly when the configuration repeats a logical name or a description. */
module Collisions {
  import opened Resources
  import opened Naming
  import opened Builder
  import opened Layout
  import opened BuildProperties

  /** No two declarations of the log share both resource type and name. */
  predicate CollisionFree(decls: seq<Decl>) {
    forall i, j :: 0 <= i < j < |decls| ==> decls[i].kind != decls[j].kind || decls[i].name != decls[j].name
  }

  predicate DistinctPortNames(ports: seq<PortArgs>) {
    forall i, j :: 0 <= i < j < |ports| ==> ports[i].name != ports[j].name
  }

  predicate DistinctDescriptions(routes: seq<RouteArgs>) {
    forall i, j :: 0 <= i < j < |routes| ==> routes[i].description != routes[j].description
  }

  /** The logical names of everything that was declared are distinct: all subnets, the
      ports that were declared, and the routes when construction completed. */
  predicate DistinctLogicalNames(name: string, args: ComponentArgs) {
    var run := Build(name, args);
    var ports := PortList(args.networkConfig);
    && DistinctSubnetNames(SubnetList(args.networkConfig))
    && |run.state.ports| <= |ports|
    && DistinctPortNames(ports[..|run.state.ports|])
    && (run.failure.None? ==> DistinctDescriptions(RouteList(args.networkConfig)))
  }

  /** Two positions of the log whose declarations have the same type and name hold
      subnets, ports or routes configured under the same logical name. */
  lemma SameKeySameLogicalName(name: string, args: ComponentArgs, a: nat, b: nat)
    requires a < b < |Build(name, args).state.decls|
    requires var d := Build(name, args).state.decls; d[a].kind == d[b].kind && d[a].name == d[b].name
    ensures var st := Build(name, args).state; var s := |SubnetList(args.networkConfig)|;
      var subs := SubnetList(args.networkConfig); var ports := PortList(args.networkConfig);
      var routes := RouteList(args.networkConfig);
      || (exists i, j :: 0 <= i < j < |subs| && subs[i].name == subs[j].name)
      || (exists i, j :: 0 <= i < j < |st.ports| <= |ports| && ports[i].name == ports[j].name)
      || (Build(name, args).failure.None? &&
            exists i, j :: 0 <= i < j < |routes| && routes[i].description == routes[j].description)
  {
    var st := Build(name, args).state;
    var s := |SubnetList(args.networkConfig)|;
    var subs := SubnetList(args.networkConfig);
    var ports := PortList(args.networkConfig);
    var routes := RouteList(args.networkConfig);
    KindAt(name, args, a);
    KindAt(name, args, b);
    var sa := SlotOf(s, |st.ports|, a);
    var sb := SlotOf(s, |st.ports|, b);
    if sa.SubnetSlot? || sa.SubnetInterfaceSlot? {
      if sb.PortInterfaceSlot? {
        SubnetAndPortInterfaceKeysDiffer(name, args, a, b);
      } else {
        SameSubnetKey(name, args, a, b);
        assert 0 <= (a - 2) / 2 < (b - 2) / 2 < |subs|;
      }
    } else if sa.PortSlot? || sa.PortInterfaceSlot? {
      SamePortKey(name, args, a, b);
      var j := (a - SubnetAt(s)) / 2;
      assert 0 <= j < (b - SubnetAt(s)) / 2 < |st.ports|;
    } else if sa.RouteSlot? {
      SameRouteKey(name, args, a, b);
      assert 0 <= a - PortAt(s, |st.ports|) < b - PortAt(s, |st.ports|) < |routes|;
    }
  }

  /** Subnet declarations, or subnet interfaces, share a name only when their subnets
      share a logical name. */
  lemma SameSubnetKey(name: string, args: ComponentArgs, a: nat, b: nat)
    requires 2 <= a < b < SubnetAt(|SubnetList(args.networkConfig)|) && a % 2 == b % 2
    requires var d := Build(name, args).state.decls; |d| > b && d[a].name == d[b].name
    ensures var subs := SubnetList(args.networkConfig);
      (a - 2) / 2 < (b - 2) / 2 < |subs| && subs[(a - 2) / 2].name == subs[(b - 2) / 2].name
  {
    var subs := SubnetList(args.networkConfig);
    DeclInSubnetRegion(name, args, a);
    DeclInSubnetRegion(name, args, b);
    var i, j := (a - 2) / 2, (b - 2) / 2;
    if a % 2 == 1 {
      InterfaceNameInjective(SubnetName(name, subs[i].name), SubnetName(name, subs[j].name));
    }
    SubnetNameInjective(name, subs[i].name, subs[j].name);
  }

  /** A subnet's interface and a port's interface never share a name. */
  lemma SubnetAndPortInterfaceKeysDiffer(name: string, args: ComponentArgs, a: nat, b: nat)
    requires var st := Build(name, args).state; var s := |SubnetList(args.networkConfig)|;
      2 <= a < SubnetAt(s) <= b < PortAt(s, |st.ports|) && a % 2 == 1 && b % 2 == 1
    ensures var d := Build(name, args).state.decls; b < |d| && d[a].name != d[b].name
  {
    var s := |SubnetList(args.networkConfig)|;
    DeclInSubnetRegion(name, args, a);
    DeclInPortRegion(name, args, b);
    SubnetAndPortInterfacesDiffer(name, SubnetList(args.networkConfig)[(a - 2) / 2].name,
      PortList(args.networkConfig)[(b - SubnetAt(s)) / 2].name);
  }

  /** Port declarations, or port interfaces, share a name only when their ports share
      a logical name. */
  lemma SamePortKey(name: string, args: ComponentArgs, a: nat, b: nat)
    requires var st := Build(name, args).state; var s := |SubnetList(args.networkConfig)|;
      SubnetAt(s) <= a < b < PortAt(s, |st.ports|) && a % 2 == b % 2
    requires var d := Build(name, args).state.decls; |d| > b && d[a].name == d[b].name
    ensures var st := Build(name, args).state; var s := |SubnetList(args.networkConfig)|;
      var ports := PortList(args.networkConfig);
      (a - SubnetAt(s)) / 2 < (b - SubnetAt(s)) / 2 < |st.ports| <= |ports|
      && ports[(a - SubnetAt(s)) / 2].name == ports[(b - SubnetAt(s)) / 2].name
  {
    var s := |SubnetList(args.networkConfig)|;
    var ports := PortList(args.networkConfig);
    DeclInPortRegion(name, args, a);
    DeclInPortRegion(name, args, b);
    var i, j := (a - SubnetAt(s)) / 2, (b - SubnetAt(s)) / 2;
    if a % 2 == 1 {
      InterfaceNameInjective(PortName(name, ports[i].name), PortName(name, ports[j].name));
    }
    PortNameInjective(name, ports[i].name, ports[j].name);
  }

  /** Route declarations share a name only when their routes share a description. */
  lemma SameRouteKey(name: string, args: ComponentArgs, a: nat, b: nat)
    requires var st := Build(name, args).state; var s := |SubnetList(args.networkConfig)|;
      PortAt(s, |st.ports|) <= a < b < |st.decls|
    requires var d := Build(name, args).state.decls; d[a].name == d[b].name
    ensures var st := Build(name, args).state; var s := |SubnetList(args.networkConfig)|;
      var routes := RouteList(args.networkConfig); var p := PortAt(s, |st.ports|);
      Build(name, args).failure.None? && b - p < |routes| && routes[a - p].description == routes[b - p].description
  {
    var st := Build(name, args).state;
    var p := PortAt(|SubnetList(args.networkConfig)|, |st.ports|);
    var routes := RouteList(args.networkConfig);
    DeclInRouteRegion(name, args, a);
    DeclInRouteRegion(name, args, b);
    RouteNameInjective(name, routes[a - p].description, routes[b - p].description);
  }

  lemma KindAt(name: string, args: ComponentArgs, at: nat)
    requires at < |Build(name, args).state.decls|
    ensures var st := Build(name, args).state;
      st.decls[at].kind == SlotKind(SlotOf(|SubnetList(args.networkConfig)|, |st.ports|, at))
  {
    DeclAt(name, args, at);
  }

  /** Distinct logical names give collision-free declarations. */
  lemma DistinctGivesCollisionFree(name: string, args: ComponentArgs)
    requires DistinctLogicalNames(name, args)
    ensures CollisionFree(Build(name, args).state.decls)
  {
    var st := Build(name, args).state;
    var ports := PortList(args.networkConfig);
    forall a, b | 0 <= a < b < |st.decls|
      ensures st.decls[a].kind != st.decls[b].kind || st.decls[a].name != st.decls[b].name
    {
      if st.decls[a].kind == st.decls[b].kind && st.decls[a].name == st.decls[b].name {
        SameKeySameLogicalName(name, args, a, b);
      }
    }
  }

  /** Collision-free declarations mean distinct logical names. */
  lemma CollisionFreeGivesDistinct(name: string, args: ComponentArgs)
    requires CollisionFree(Build(name, args).state.decls)
    ensures DistinctLogicalNames(name, args)
  {
    var run := Build(name, args);
    var st := run.state;
    var subs := SubnetList(args.networkConfig);
    var ports := PortList(args.networkConfig);
    var routes := RouteList(args.networkConfig);
    BuildHandles(name, args);
    forall i, j | 0 <= i < j < |subs| ensures subs[i].name != subs[j].name {
      CollidingSubnets(name, args, i, j);
    }
    forall i, j | 0 <= i < j < |st.ports| ensures ports[..|st.ports|][i].name != ports[..|st.ports|][j].name {
      CollidingPorts(name, args, i, j);
    }
    if run.failure.None? {
      forall i, j | 0 <= i < j < |routes| ensures routes[i].description != routes[j].description {
        CollidingRoutes(name, args, i, j);
      }
    }
  }

  lemma CollidingSubnets(name: string, args: ComponentArgs, i: nat, j: nat)
    requires CollisionFree(Build(name, args).state.decls)
    requires i < j < |SubnetList(args.networkConfig)|
    ensures SubnetList(args.networkConfig)[i].name != SubnetList(args.networkConfig)[j].name
  {
    var d := Build(name, args).state.decls;
    SubnetDeclAt(name, args, i);
    SubnetDeclAt(name, args, j);
    assert d[SubnetAt(i)].kind != d[SubnetAt(j)].kind || d[SubnetAt(i)].name != d[SubnetAt(j)].name;
  }

  lemma CollidingPorts(name: string, args: ComponentArgs, i: nat, j: nat)
    requires CollisionFree(Build(name, args).state.decls)
    requires i < j < FirstUnresolved(PortList(args.networkConfig), 1)
    ensures PortList(args.networkConfig)[i].name != PortList(args.networkConfig)[j].name
  {
    var d := Build(name, args).state.decls;
    var s := |SubnetList(args.networkConfig)|;
    PortDeclAt(name, args, i);
    PortDeclAt(name, args, j);
    assert d[PortAt(s, i)].kind != d[PortAt(s, j)].kind || d[PortAt(s, i)].name != d[PortAt(s, j)].name;
  }

  lemma CollidingRoutes(name: string, args: ComponentArgs, i: nat, j: nat)
    requires CollisionFree(Build(name, args).state.decls)
    requires Build(name, args).failure.None?
    requires i < j < |RouteList(args.networkConfig)|
    ensures RouteList(args.networkConfig)[i].description != RouteList(args.networkConfig)[j].description
  {
    var d := Build(name, args).state.decls;
    var s := |SubnetList(args.networkConfig)|;
    var p := |PortList(args.networkConfig)|;
    RouteDeclAt(name, args, i);
    RouteDeclAt(name, args, j);
    assert d[RouteAt(s, p, i)].kind != d[RouteAt(s, p, j)].kind || d[RouteAt(s, p, i)].name != d[RouteAt(s, p, j)].name;
  }

  /** The declarations reaching the engine are collision free exactly when the logical
      names of the subnets, of the declared ports and of the routes are distinct. */
  lemma CollisionFreeIffDistinct(name: string, args: ComponentArgs)
    ensures CollisionFree(Build(name, args).state.decls) <==> DistinctLogicalNames(name, args)
  {
    if DistinctLogicalNames(name, args) {
      DistinctGivesCollisionFree(name, args);
    }
    if CollisionFree(Build(name, args).state.decls) {
      CollisionFreeGivesDistinct(name, args);
    }
  }
}

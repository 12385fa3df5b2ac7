/** Where each loop of the constructor puts its declarations, stated for an arbitrary
    starting state: the loops only append, in configuration order, two declarations
    per subnet or port and one per route. */
module Layout {
  import opened Wrappers
  import opened Resources
  import opened Naming
  import opened Builder

  /** The index of the first port whose target network cannot be resolved, or the
      number of ports when every one resolves. */
  function FirstUnresolved(ports: seq<PortArgs>, network: Handle): (k: nat)
    ensures k <= |ports|
    ensures forall j :: 0 <= j < k ==> TargetNetwork(ports[j], network).Success?
    ensures k < |ports| ==> TargetNetwork(ports[k], network).Failure?
    decreases |ports|
  {
    if |ports| == 0 then 0
    else
      var k := FirstUnresolved(ports[..|ports| - 1], network);
      if k < |ports| - 1 then k
      else if TargetNetwork(ports[|ports| - 1], network).Failure? then |ports| - 1
      else |ports|
  }

  /** The subnet loop appends, for subnet i, its declaration at offset 2i and its
      router interface at offset 2i+1, appends that subnet's handle to `subnets`,
      and touches nothing else but the registry. */
  lemma {:induction false} DeclareSubnetsLayout(st: State, subs: seq<SubnetArgs>)
    ensures var r := DeclareSubnets(st, subs);
      && r.base == st.base && r.router == st.router && r.network == st.network && r.ports == st.ports
      && |r.decls| == |st.decls| + 2 * |subs| && r.decls[..|st.decls|] == st.decls
      && |r.subnets| == |st.subnets| + |subs| && r.subnets[..|st.subnets|] == st.subnets
      && (forall i :: 0 <= i < |subs| ==>
            && r.subnets[|st.subnets| + i] == |st.decls| + 2 * i
            && r.decls[|st.decls| + 2 * i] == SubnetDecl(st.base, subs[i], st.network)
            && r.decls[|st.decls| + 2 * i + 1] == SubnetInterfaceDecl(st.base, subs[i], st.router, |st.decls| + 2 * i))
    decreases |subs|
  {
    if |subs| > 0 {
      var init := subs[..|subs| - 1];
      DeclareSubnetsLayout(st, init);
      var prev := DeclareSubnets(st, init);
      var r := DeclareSubnets(st, subs);
      assert r == AddSubnet(prev, subs[|subs| - 1]);
      assert r.decls[..|st.decls|] == prev.decls[..|st.decls|];
      assert r.subnets[..|st.subnets|] == prev.subnets[..|st.subnets|];
      forall i | 0 <= i < |subs|
        ensures r.subnets[|st.subnets| + i] == |st.decls| + 2 * i
        ensures r.decls[|st.decls| + 2 * i] == SubnetDecl(st.base, subs[i], st.network)
        ensures r.decls[|st.decls| + 2 * i + 1] == SubnetInterfaceDecl(st.base, subs[i], st.router, |st.decls| + 2 * i)
      {
        if i < |subs| - 1 {
          assert subs[i] == init[i];
        }
      }
    }
  }

  /** The position of the last subnet configured under `name`, or -1 when there is none. */
  function LastNamed(subs: seq<SubnetArgs>, name: string): (i: int)
    ensures -1 <= i < |subs|
    ensures i >= 0 ==> subs[i].name == name
    ensures forall j :: i < j < |subs| ==> subs[j].name != name
    decreases |subs|
  {
    if |subs| == 0 then -1
    else if subs[|subs| - 1].name == name then |subs| - 1
    else LastNamed(subs[..|subs| - 1], name)
  }

  /** The subnet loop registers each configured logical name under the subnet declared
      last with that name (offset 2i for subnet i), and leaves other names as they were. */
  lemma {:induction false} DeclareSubnetsRegistry(st: State, subs: seq<SubnetArgs>, name: string)
    ensures var r := DeclareSubnets(st, subs); var i := LastNamed(subs, name);
      && (i >= 0 ==> name in r.subnetMap && r.subnetMap[name] == |st.decls| + 2 * i)
      && (i < 0 ==> (name in r.subnetMap <==> name in st.subnetMap))
      && (i < 0 && name in st.subnetMap ==> r.subnetMap[name] == st.subnetMap[name])
    decreases |subs|
  {
    if |subs| > 0 {
      var init := subs[..|subs| - 1];
      DeclareSubnetsRegistry(st, init, name);
      DeclareSubnetsLayout(st, init);
    }
  }

  /** The port loop stops at the first port whose network cannot be resolved: its
      state is that of the loop over the ports before it, and it reports that port's
      error; with no such port it completes without error. */
  lemma {:induction false} DeclarePortsStops(st: State, ports: seq<PortArgs>)
    ensures var k := FirstUnresolved(ports, st.network);
      && DeclarePorts(st, ports).state == DeclarePorts(st, ports[..k]).state
      && DeclarePorts(st, ports[..k]).failure == None
      && DeclarePorts(st, ports).failure == (if k < |ports| then Some(MissingNetworkId(ports[k].name)) else None)
    decreases |ports|
  {
    if |ports| > 0 {
      var init := ports[..|ports| - 1];
      var last := ports[|ports| - 1];
      DeclarePortsStops(st, init);
      var k0 := FirstUnresolved(init, st.network);
      var k := FirstUnresolved(ports, st.network);
      if k0 < |init| {
        assert k == k0;
        assert ports[..k] == init[..k0];
        assert ports[k] == init[k0];
      } else {
        assert init[..k0] == init;
        if AddPort(DeclarePorts(st, init).state, last).Failure? {
          assert k == |init|;
          assert ports[..k] == init;
        } else {
          assert k == |ports|;
          assert ports[..k] == ports;
        }
      }
    }
  }

  /** Once a port has failed, the ports after it change nothing: the loop has stopped. */
  lemma {:induction false} DeclarePortsFailurePersists(st: State, ports: seq<PortArgs>, j: nat)
    requires j <= |ports|
    requires DeclarePorts(st, ports[..j]).failure.Some?
    ensures DeclarePorts(st, ports) == DeclarePorts(st, ports[..j])
    decreases |ports|
  {
    if j < |ports| {
      var init := ports[..|ports| - 1];
      assert init[..j] == ports[..j];
      DeclarePortsFailurePersists(st, init, j);
    } else {
      assert ports[..j] == ports;
    }
  }

  /** When the first k ports all resolve, the port loop over them appends two
      declarations per port to the log and one handle per port to `ports`, and touches
      nothing else. */
  lemma {:induction false} DeclarePortsPrefix(st: State, ports: seq<PortArgs>, k: nat)
    requires k <= |ports|
    requires forall j :: 0 <= j < k ==> TargetNetwork(ports[j], st.network).Success?
    ensures var run := DeclarePorts(st, ports[..k]); var r := run.state;
      && run.failure == None
      && r.base == st.base && r.router == st.router && r.network == st.network
      && r.subnets == st.subnets && r.subnetMap == st.subnetMap
      && |r.decls| == |st.decls| + 2 * k && r.decls[..|st.decls|] == st.decls
      && |r.ports| == |st.ports| + k && r.ports[..|st.ports|] == st.ports
    decreases k
  {
    if k > 0 {
      DeclarePortsPrefix(st, ports, k - 1);
      var prev := DeclarePorts(st, ports[..k - 1]).state;
      assert ports[..k][..k - 1] == ports[..k - 1];
      assert ports[..k][k - 1] == ports[k - 1];
      var r := DeclarePorts(st, ports[..k]).state;
      assert r == AddPort(prev, ports[k - 1]).value;
      assert r.decls[..|st.decls|] == prev.decls[..|st.decls|];
      assert r.ports[..|st.ports|] == prev.ports[..|st.ports|];
    }
  }

  /** In that loop, port j is declared at offset 2j, followed by its router interface,
      and its handle is entry j of the appended part of `ports`. */
  lemma {:induction false} DeclarePortsPrefixAt(st: State, ports: seq<PortArgs>, k: nat, j: nat)
    requires j < k <= |ports|
    requires forall i :: 0 <= i < k ==> TargetNetwork(ports[i], st.network).Success?
    ensures var r := DeclarePorts(st, ports[..k]).state;
      && |st.ports| + j < |r.ports| && |st.decls| + 2 * j + 1 < |r.decls|
      && r.ports[|st.ports| + j] == |st.decls| + 2 * j
      && r.decls[|st.decls| + 2 * j] == PortDecl(st.base, ports[j], st.network, TargetNetwork(ports[j], st.network).value)
      && r.decls[|st.decls| + 2 * j + 1] == PortInterfaceDecl(st.base, ports[j], st.router, |st.decls| + 2 * j)
    decreases k
  {
    DeclarePortsPrefix(st, ports, k - 1);
    DeclarePortsPrefix(st, ports, k);
    var prev := DeclarePorts(st, ports[..k - 1]).state;
    assert ports[..k][..k - 1] == ports[..k - 1];
    assert ports[..k][k - 1] == ports[k - 1];
    var r := DeclarePorts(st, ports[..k]).state;
    assert r == AddPort(prev, ports[k - 1]).value;
    if j < k - 1 {
      DeclarePortsPrefixAt(st, ports, k - 1, j);
      assert r.decls[|st.decls| + 2 * j] == prev.decls[|st.decls| + 2 * j];
      assert r.decls[|st.decls| + 2 * j + 1] == prev.decls[|st.decls| + 2 * j + 1];
      assert r.ports[|st.ports| + j] == prev.ports[|st.ports| + j];
    }
  }

  /** The port loop as a whole: it declares the ports before the first one whose
      network cannot be resolved and reports the error of the port it stopped at. */
  lemma DeclarePortsOutcome(st: State, ports: seq<PortArgs>)
    ensures var run := DeclarePorts(st, ports); var r := run.state;
      var k := FirstUnresolved(ports, st.network);
      && r == DeclarePorts(st, ports[..k]).state
      && (forall j :: 0 <= j < k ==> TargetNetwork(ports[j], st.network).Success?)
      && r.base == st.base && r.router == st.router && r.network == st.network
      && r.subnets == st.subnets && r.subnetMap == st.subnetMap
      && |r.decls| == |st.decls| + 2 * k && r.decls[..|st.decls|] == st.decls
      && |r.ports| == |st.ports| + k && r.ports[..|st.ports|] == st.ports
      && run.failure == (if k < |ports| then Some(MissingNetworkId(ports[k].name)) else None)
  {
    DeclarePortsStops(st, ports);
    DeclarePortsPrefix(st, ports, FirstUnresolved(ports, st.network));
  }

  /** The route loop appends one route per configured route, in order, each depending
      on all subnets followed by all ports, and changes nothing else. */
  lemma {:induction false} DeclareRoutesLayout(st: State, routes: seq<RouteArgs>)
    ensures var r := DeclareRoutes(st, routes);
      && r.base == st.base && r.router == st.router && r.network == st.network
      && r.subnets == st.subnets && r.ports == st.ports && r.subnetMap == st.subnetMap
      && |r.decls| == |st.decls| + |routes| && r.decls[..|st.decls|] == st.decls
      && (forall q :: 0 <= q < |routes| ==>
            r.decls[|st.decls| + q] == RouteDecl(st.base, routes[q], st.router, st.subnets + st.ports))
    decreases |routes|
  {
    if |routes| > 0 {
      var init := routes[..|routes| - 1];
      DeclareRoutesLayout(st, init);
      var prev := DeclareRoutes(st, init);
      var r := DeclareRoutes(st, routes);
      assert r.decls[..|st.decls|] == prev.decls[..|st.decls|];
      forall q | 0 <= q < |routes|
        ensures r.decls[|st.decls| + q] == RouteDecl(st.base, routes[q], st.router, st.subnets + st.ports)
      {
        if q < |routes| - 1 {
          assert routes[q] == init[q];
        }
      }
    }
  }
}

/** Derivation of the resource names the component registers, from its base name. */
module Naming {

  function RouterName(base: string): string { base + "-router" }

  function NetworkName(base: string): string { base + "-net" }

  function SubnetName(base: string, name: string): string { base + "-subnet-" + name }

  function PortName(base: string, name: string): string { base + "-port-" + name }

  function RouteName(base: string, description: string): string { base + "-route-" + description }

  /** The router interface attaching a subnet or a port is named after it. */
  function InterfaceName(owner: string): string { owner + "-if" }

  lemma PrefixCancels(p: string, a: string, b: string)
    ensures p + a == p + b <==> a == b
  {
    if p + a == p + b {
      assert a == (p + a)[|p|..];
      assert b == (p + b)[|p|..];
    }
  }

  lemma SuffixCancels(a: string, b: string, q: string)
    ensures a + q == b + q <==> a == b
  {
    if a + q == b + q {
      assert |a| == |b|;
      assert a == (a + q)[..|a|];
      assert b == (b + q)[..|b|];
    }
  }

  /** Two subnets get the same resource name exactly when they share a logical name. */
  lemma SubnetNameInjective(base: string, a: string, b: string)
    ensures SubnetName(base, a) == SubnetName(base, b) <==> a == b
  {
    PrefixCancels(base + "-subnet-", a, b);
  }

  /** Two ports get the same resource name exactly when they share a logical name. */
  lemma PortNameInjective(base: string, a: string, b: string)
    ensures PortName(base, a) == PortName(base, b) <==> a == b
  {
    PrefixCancels(base + "-port-", a, b);
  }

  /** Two routes get the same resource name exactly when they share a description. */
  lemma RouteNameInjective(base: string, a: string, b: string)
    ensures RouteName(base, a) == RouteName(base, b) <==> a == b
  {
    PrefixCancels(base + "-route-", a, b);
  }

  /** Two interfaces get the same name exactly when their owners have the same name. */
  lemma InterfaceNameInjective(a: string, b: string)
    ensures InterfaceName(a) == InterfaceName(b) <==> a == b
  {
    SuffixCancels(a, b, "-if");
  }

  /** A subnet's interface and a port's interface never share a name, whatever
      the logical names: the two differ right after the base name's dash. */
  lemma SubnetAndPortInterfacesDiffer(base: string, a: string, b: string)
    ensures InterfaceName(SubnetName(base, a)) != InterfaceName(PortName(base, b))
  {
    var i := |base| + 1;
    assert InterfaceName(SubnetName(base, a))[i] == 's';
    assert InterfaceName(PortName(base, b))[i] == 'p';
  }
}

# Network component: a verified model of its resource-graph construction

The `Network` component (`nodejs/src/index.ts`) is a Pulumi component resource. It
builds a small OpenStack networking topology from one configuration block:

- a router, `<base>-router`;
- a network, `<base>-net`;
- per subnet, `<base>-subnet-<name>` and its router interface `<base>-subnet-<name>-if`;
- per extra router port, `<base>-port-<name>` and its interface `<base>-port-<name>-if`;
- per static route, `<base>-route-<description>`.

The component keeps a `subnets` array, a `ports` array and a `subnetMap` registry
keyed by logical subnet name. It offers `subnetId(name)` and `subnetIds()` lookups.
It registers the router id, the network id, the subnet ids and the port ids as outputs.

The model reduces the provisioning engine to the ordered log of declarations handed
to it. Each declaration has a resource type, a name, a property bag, a parent and an
explicit `dependsOn` list. A resource's id is a handle: the position of its
declaration in the log. The model is split in two layers.

- `Builder` states construction as pure state transformers. These are `AddSubnet`,
  `AddPort` and `AddRoute`, folded by `DeclareSubnets`, `DeclarePorts` and
  `DeclareRoutes` into `Build`. `Layout`, `BuildProperties` and `Collisions` prove
  what `Build` produces.
- `NetworkComponent.Network` is the object itself. Its fields are updated in place by
  the constructor, by `CreateSubnet`, `CreateAdditionalPort` and `CreateRoute`, and by
  the constructor's three loops. Each method is proved to perform exactly the matching
  transformer, so everything proved of `Build` holds of a constructed object. Every
  method also keeps `Valid()`: the handles point at declarations of their type, the
  registry points at subnets named after their keys, and every declaration comes
  after everything it needs (its `dependsOn`, its parent, and every resource whose id
  it carries).

Where the component's documented design and the code disagree, the model follows
the code:

- **Repeated logical names.** A repeated subnet name is not rejected. The later subnet
  overwrites the registry entry (line 99) and both subnets stay declared and listed.
  `LaterSubnetOverwritesEntry` states this. Repeated names make two declarations
  share a type and a name; `CollisionFreeIffDistinct` states exactly when that happens.
- **Missing network id.** A port whose network cannot be resolved is not caught before
  anything is declared. The error is thrown mid-construction (line 114), after the
  router, the network, every subnet and every earlier port are declared, and before
  any route. See `UnresolvedPortStopsConstruction`.
- **Positional names.** There is no positional naming for anonymous subnets or routes.
  Names always come from `name` or `description` (lines 89, 133).
- **Empty base name.** An empty base name is not rejected.
- **Route dependencies.** The configuration documents routes as added once at least
  one interface is present on the router (line 27). The code's route `dependsOn` is
  every subnet followed by every port (line 137), not the router or any interface.
  The router precedes it as its parent and through `routerId`. No chain of
  prerequisites leads from a route to an interface, so nothing orders a route after
  any interface (`RouteOrdering.RoutesNeedNoInterface`). In the one-subnet, one-route
  example the route depends on the subnet, not on the subnet's interface
  (`OneSubnetOneRoute`, `DemoScenario`, `RouteOrdering.RouteSkipsTheInterface`). The
  corrected route loop, which also waits for the interfaces, is
  `RouteOrdering.BuildIntended`; see "## Findings".
- **Registry timing.** The registry is filled synchronously as each subnet is
  declared, not when the subnet's id resolves.

## Model

The rows for the methods of `NetworkComponent.Network` also stand for the `Builder`
functions each of them is proved to perform: `Build` for the constructor, `AddSubnet`,
`AddPort` and `AddRoute` for the three `create…` methods, `DeclareSubnets`,
`DeclarePorts` and `DeclareRoutes` for the three loops, and `RouterDecl` to
`RouteDecl` for the single declarations (their contents are the `…DeclFields` rows).

| member | source | states |
|---|---|---|
| NetworkComponent.Network.constructor | nodejs/src/index.ts:46-85 | The object's state is `Build(name, args)`'s state. The thrown error is `Build`'s failure. Outputs (router, network, `subnets`, `ports`) are registered exactly when nothing was thrown. The object is `Valid()`. |
| NetworkComponent.Network.DeclareSubnetList | nodejs/src/index.ts:71 | The subnet loop performs `DeclareSubnets` on the object's state, keeps `Valid()`, and leaves the thrown error and the outputs untouched. |
| NetworkComponent.Network.DeclarePortList | nodejs/src/index.ts:74 | The port loop performs `DeclarePorts`: the new state and the returned error are exactly its outcome, and it stops at the first port that throws. |
| NetworkComponent.Network.DeclareRouteList | nodejs/src/index.ts:77 | The route loop performs `DeclareRoutes` on the object's state and keeps `Valid()`. |
| NetworkComponent.Network.CreateSubnet | nodejs/src/index.ts:87-106 | `createSubnet` performs `AddSubnet`: it appends the subnet and its interface, pushes onto `subnets` and writes `subnetMap[name]`, keeping `Valid()`. |
| NetworkComponent.Network.CreateAdditionalPort | nodejs/src/index.ts:108-129 | `createAdditionalPort` performs `AddPort`. On failure it leaves the object unchanged and returns `MissingNetworkId(port name)`. On success it is the appended state. |
| NetworkComponent.Network.CreateRoute | nodejs/src/index.ts:131-138 | `createRoute` performs `AddRoute`: it appends one route that depends on the current `subnets` then `ports`. |
| NetworkComponent.Network.SubnetId | nodejs/src/index.ts:140-144 | Succeeds iff the name is a registry key, with the registered subnet. Under `Valid()` that is a subnet declared as `<base>-subnet-<name>`. Otherwise it fails with `SubnetNotFound(name, base)`. |
| NetworkComponent.Network.SubnetIdAsWritten | nodejs/src/index.ts:140-144 | The lookup as written, on a plain `{}` registry. Own keys give their subnet's id. Names of `Object.prototype` members give `undefined` instead of an error. Only other names throw `SubnetNotFound`. |
| NetworkComponent.Network.SubnetIds | nodejs/src/index.ts:146-148 | The ids of `subnets`, element for element. Under `Valid()` each is a subnet declaration. |
| NetworkComponent.Network.PortIds | nodejs/src/index.ts:83 | The `portIds` output: the ids of `ports`, element for element. Under `Valid()` each is a port declaration. |
| NetworkComponent.SubnetIdAfterConstruction | nodejs/src/index.ts:140-144 | After construction, `subnetId(n)` succeeds iff some configured subnet is named `n`. It then answers the last such subnet's declaration. Otherwise the thrown message names the subnet and the component. |
| NetworkComponent.SubnetIdsAfterConstruction | nodejs/src/index.ts:146-148 | After construction, `subnetIds()` has one entry per configured subnet, in configuration order, each that subnet's declaration. |
| NetworkComponent.PortIdsAfterConstruction | nodejs/src/index.ts:83 | After construction, `portIds` lists the ports declared before the first unresolvable one (all ports when construction completed), in configuration order, each named `<base>-port-<name>`. |
| NetworkComponent.PrototypeNameAnswersUndefined | nodejs/src/index.ts:141-143 | When no subnet is named "constructor", the lookup as written answers `undefined` for it, while the own-key lookup throws `SubnetNotFound("constructor", base)`. |
| NetworkComponent.OneSubnetOneRoute | nodejs/src/index.ts:53-138 | One subnet, no extra port and one route produce exactly five declarations: router, network, subnet, subnet interface, route. The route depends on the subnet alone, and `subnetIds`/`subnetId` answer that subnet. |
| NetworkComponent.DemoScenario | nodejs/src/index.ts:53-138 | The "demo" configuration (subnet "a", route "default") declares `demo-router`, `demo-net`, `demo-subnet-a`, `demo-subnet-a-if`, then `demo-route-default`, which depends on the subnet. `subnetIds()` is that subnet and `subnetId("a")` answers it. |
| Resources.Lift | nodejs/src/index.ts:93 | Spreading a record keeps exactly its keys, each with its own value. |
| Builder.TargetNetwork | nodejs/src/index.ts:111-115 | `selfNetwork` true gives the component's own network. Otherwise the port resolves iff a truthy `networkId` is supplied, and resolves to it. A failure is `MissingNetworkId(port name)`. |
| Builder.RouterDeclFields | nodejs/src/index.ts:53-58 | The router declaration: type Router, name `<base>-router`, child of the component, no `dependsOn`, its arguments minus `additionalPorts` plus the derived name. |
| Builder.NetworkDeclFields | nodejs/src/index.ts:60-68 | The network declaration: type Network, name `<base>-net`, the block's own arguments, the derived name, and `routerConfig`, `subnets`, `routes` set to undefined. |
| Builder.SubnetDeclFields | nodejs/src/index.ts:89-96 | A subnet declaration: name `<base>-subnet-<name>`, child of the network, its arguments, the derived name and the network's id. |
| Builder.PortDeclFields | nodejs/src/index.ts:117-121 | A port declaration: name `<base>-port-<name>`, child of the network, every supplied argument (`selfNetwork` only when supplied), the derived name and the resolved network in place of any supplied `networkId`. |
| Builder.RouteDeclFields | nodejs/src/index.ts:131-137 | A route declaration: name `<base>-route-<description>`, child of the router, its arguments minus `description`, the router's id, and the given `dependsOn`. |
| Builder.RouterDeclPrereqs | nodejs/src/index.ts:53-58 | The router declaration needs no other resource. |
| Builder.NetworkDeclPrereqs | nodejs/src/index.ts:60-68 | The network declaration needs no other resource. |
| Builder.SubnetDeclPrereqs | nodejs/src/index.ts:89-96 | A subnet needs exactly the network: its parent, whose id it carries. |
| Builder.PortDeclPrereqs | nodejs/src/index.ts:117-121 | A port placed in the component's network or in an external one needs exactly the component's network, its parent. |
| Builder.InterfaceDeclPrereqs | nodejs/src/index.ts:102-128 | A subnet's or port's interface needs exactly the router and its owner. |
| Builder.RouteDeclPrereqs | nodejs/src/index.ts:134-137 | A route needs exactly the router and its `dependsOn` list. |
| Builder.StartWellFormed | nodejs/src/index.ts:53-68 | The state after the router and the network are declared is well formed. |
| Builder.AddSubnetWellFormed | nodejs/src/index.ts:87-105 | `createSubnet` preserves well-formedness, the topological order of the log included. |
| Builder.AddPortWellFormed | nodejs/src/index.ts:108-129 | A successful `createAdditionalPort` preserves well-formedness. |
| Builder.AddRouteWellFormed | nodejs/src/index.ts:131-138 | `createRoute` preserves well-formedness: every subnet and port a route depends on is already declared. |
| Builder.DeclareSubnetsWellFormed | nodejs/src/index.ts:71 | The subnet loop preserves well-formedness. |
| Builder.DeclarePortsWellFormed | nodejs/src/index.ts:74 | The port loop preserves well-formedness, whether or not a port throws. |
| Builder.DeclareRoutesWellFormed | nodejs/src/index.ts:77 | The route loop preserves well-formedness. |
| Builder.BuildWellFormed | nodejs/src/index.ts:46-85 | Whatever the configuration, and whether or not construction throws, every declaration comes after everything it needs. |
| Layout.FirstUnresolved | nodejs/src/index.ts:111-115 | The index of the first port whose network cannot be resolved: every earlier port resolves, and that one does not. |
| Layout.DeclareSubnetsLayout | nodejs/src/index.ts:71 | The subnet loop appends subnet i and its interface at offsets 2i and 2i+1 and appends its handle to `subnets`. Everything else but the registry is unchanged. |
| Layout.LastNamed | nodejs/src/index.ts:99 | The last position holding a logical name, or -1: that entry has the name, and no later one does. |
| Layout.DeclareSubnetsRegistry | nodejs/src/index.ts:99 | After the subnet loop, each configured name maps to the last subnet with that name. Other names are as before. |
| Layout.DeclarePortsStops | nodejs/src/index.ts:74 | The port loop's state is that of the ports before the first unresolvable one. Its error names that port, or there is none. |
| Layout.DeclarePortsFailurePersists | nodejs/src/index.ts:74 | Once a port has thrown, later ports change nothing. |
| Layout.DeclarePortsPrefix | nodejs/src/index.ts:117-128 | Over ports that all resolve, the loop appends two declarations and one `ports` entry per port and changes nothing else. |
| Layout.DeclarePortsPrefixAt | nodejs/src/index.ts:117-128 | In that loop, port j and its interface sit at offsets 2j and 2j+1, and its handle is `ports` entry j. |
| Layout.DeclarePortsOutcome | nodejs/src/index.ts:74 | The port loop as a whole: state, sizes and error in terms of the first unresolvable port. |
| Layout.DeclareRoutesLayout | nodejs/src/index.ts:77 | The route loop appends one route per configured route, in order. Each depends on all subnets followed by all ports. |
| BuildProperties.AfterSubnetsLayout | nodejs/src/index.ts:53-71 | After the subnet loop: router at 0, network at 1, subnet i at 2+2i followed by its interface. |
| BuildProperties.AfterSubnetsHandles | nodejs/src/index.ts:50-71 | After the subnet loop: the base name, router 0, network 1, no ports, and two declarations per subnet. |
| BuildProperties.AfterPortsLayout | nodejs/src/index.ts:74 | The port loop keeps the subnet phase as a prefix and adds two declarations per declared port. It reports the first unresolvable port. |
| BuildProperties.AfterPortsAt | nodejs/src/index.ts:74 | Declared port j sits right after the subnet phase, at offset 2j, followed by its interface. |
| BuildProperties.AfterRoutesLayout | nodejs/src/index.ts:77 | When no port threw, the route loop appends one route per configured route after everything else. |
| BuildProperties.BuildKeepsSubnetPhase | nodejs/src/index.ts:71-77 | Later loops only append: the subnet phase's declarations, `subnets` and registry are final. |
| BuildProperties.BuildKeepsPortPhase | nodejs/src/index.ts:74-77 | `ports` is final after the port loop, and a thrown error ends construction there. |
| BuildProperties.BuildHandles | nodejs/src/index.ts:46-85 | Router 0, network 1, one `subnets` entry per subnet, one `ports` entry per declared port. Construction completes iff every port resolves. |
| BuildProperties.HeadDeclsAt | nodejs/src/index.ts:53-68 | The first two declarations are the router's and the network's. |
| BuildProperties.SubnetDeclAt | nodejs/src/index.ts:87-105 | Subnet i's declaration and interface are at 2+2i and 3+2i, and `subnets[i]` is 2+2i. |
| BuildProperties.PortDeclAt | nodejs/src/index.ts:108-129 | Declared port j's declaration and interface follow the subnets, and `ports[j]` points at it. |
| BuildProperties.RouteDeclAt | nodejs/src/index.ts:131-138 | Route q follows every subnet and port. |
| BuildProperties.RouterDeclaredFirst | nodejs/src/index.ts:53-58 | The router is declared first, named `<base>-router`, with `additionalPorts` stripped and the derived name set. |
| BuildProperties.NetworkDeclaredSecond | nodejs/src/index.ts:60-68 | The network is declared second, named `<base>-net`, with `routerConfig`, `subnets` and `routes` blanked. |
| BuildProperties.SubnetDeclared | nodejs/src/index.ts:87-105 | Subnet i is `<base>-subnet-<name>`, a child of the network carrying its id. Its interface `…-if` is a child of the subnet, depends on the router, and carries the router's and the subnet's ids. |
| BuildProperties.PortDeclared | nodejs/src/index.ts:108-129 | Declared port j is `<base>-port-<name>`, a child of the network, with all its arguments and the resolved network. Its interface `…-if` is a child of the port and depends on the router. |
| BuildProperties.SelfAndExternalPorts | nodejs/src/index.ts:111-121 | A `selfNetwork` port gets the component's network id. A port with a truthy external id gets that id. Neither depends on the other, and each needs only the component's network. |
| BuildProperties.RouteDeclared | nodejs/src/index.ts:131-138 | Route q is `<base>-route-<description>`, a child of the router, without `description`, carrying `routerId`, and depending on exactly every subnet then every port. |
| BuildProperties.SubnetsInConfigurationOrder | nodejs/src/index.ts:71-98 | `subnets` has one entry per configured subnet, in configuration order, each a subnet declaration with the derived name. |
| BuildProperties.SubnetRegistry | nodejs/src/index.ts:99 | The registry knows exactly the configured names. Each maps to the last subnet with that name, declared under the name derived from it. |
| BuildProperties.LaterSubnetOverwritesEntry | nodejs/src/index.ts:99 | A later subnet with the same name takes the registry entry, while both stay in `subnets`. |
| BuildProperties.RegistrySizeWhenNamesDistinct | nodejs/src/index.ts:99 | With distinct names, the registry has one entry per subnet. |
| BuildProperties.UnresolvedPortStopsConstruction | nodejs/src/index.ts:111-115 | An unresolvable port throws an error naming it. All subnets and earlier ports stay declared. That port, later ports and every route are not declared. |
| BuildProperties.DeclAt | nodejs/src/index.ts:53-77 | Every position of the log holds the declaration its slot dictates. |
| BuildProperties.LogLength | nodejs/src/index.ts:53-77 | The log has 2 + 2·subnets + 2·declared ports entries, plus one per route when no port threw. |
| BuildProperties.DeclarationOrder | nodejs/src/index.ts:53-77 | The declaration order by resource type: router, network, (subnet, interface)*, (port, interface)*, routes. |
| BuildProperties.RoutesFollowSubnetsAndPorts | nodejs/src/index.ts:137 | Every route depends on exactly all subnets then all ports, each declared before it. It depends on no interface. |
| RouteOrdering.NoInterfaceReached | nodejs/src/index.ts:102-137 | In a log where only interfaces directly need interfaces, no other declaration reaches an interface through any chain of prerequisites. |
| RouteOrdering.StartUnneeded | nodejs/src/index.ts:53-68 | The router and the network need no interface. |
| RouteOrdering.AddSubnetUnneeded | nodejs/src/index.ts:87-105 | `createSubnet` keeps the property that only interfaces need interfaces. |
| RouteOrdering.AddPortUnneeded | nodejs/src/index.ts:108-129 | A successful `createAdditionalPort` keeps it. |
| RouteOrdering.AddRouteUnneeded | nodejs/src/index.ts:131-138 | `createRoute` keeps it: a route's prerequisites are the router, subnets and ports. |
| RouteOrdering.DeclareSubnetsUnneeded | nodejs/src/index.ts:71 | The subnet loop keeps it. |
| RouteOrdering.DeclarePortsUnneeded | nodejs/src/index.ts:74 | The port loop keeps it, whether or not a port throws. |
| RouteOrdering.DeclareRoutesUnneeded | nodejs/src/index.ts:77 | The route loop keeps it. |
| RouteOrdering.BuildUnneeded | nodejs/src/index.ts:46-85 | In every constructed log, only interfaces directly need interfaces. |
| RouteOrdering.RoutesNeedNoInterface | nodejs/src/index.ts:137 | As written, no declaration a route reaches through its prerequisites is a router interface. |
| RouteOrdering.RouteSkipsTheInterface | nodejs/src/index.ts:27 | With one subnet, no extra port and one route, the subnet's interface is at position 3 and the route at position 4 does not reach it. |
| RouteOrdering.AddSubnetWaits | nodejs/src/index.ts:87-105 | `createSubnet` keeps every subnet and port followed by its interface and every route depending on an earlier interface. |
| RouteOrdering.AddPortWaits | nodejs/src/index.ts:108-129 | A successful `createAdditionalPort` keeps both. |
| RouteOrdering.AddRouteIntendedWaits | nodejs/src/index.ts:27 | The corrected `createRoute`, with some subnet or port present, appends a route that depends on an earlier interface, and keeps both properties. |
| RouteOrdering.DeclareSubnetsWait | nodejs/src/index.ts:71 | The subnet loop keeps both properties. |
| RouteOrdering.DeclarePortsWait | nodejs/src/index.ts:74 | The port loop keeps both properties. |
| RouteOrdering.DeclareRoutesIntendedWait | nodejs/src/index.ts:27 | The corrected route loop leaves `subnets` and `ports` alone and keeps both properties. |
| RouteOrdering.PhasesBeforeRoutesWait | nodejs/src/index.ts:53-74 | After the subnet and port loops, every subnet and port is followed by its interface. |
| RouteOrdering.RoutesFollowAnInterface | nodejs/src/index.ts:27 | Corrected: when at least one subnet or port is configured, every route depends on a router interface declared before it. |
| Naming.SubnetNameInjective | nodejs/src/index.ts:89 | Two subnets share a resource name iff they share a logical name. |
| Naming.PortNameInjective | nodejs/src/index.ts:109 | Two ports share a resource name iff they share a logical name. |
| Naming.RouteNameInjective | nodejs/src/index.ts:133 | Two routes share a resource name iff they share a description. |
| Naming.InterfaceNameInjective | nodejs/src/index.ts:102 | Two interfaces share a name iff their owners do. |
| Naming.SubnetAndPortInterfacesDiffer | nodejs/src/index.ts:102-125 | A subnet's interface and a port's interface never share a name. |
| Collisions.SameKeySameLogicalName | nodejs/src/index.ts:89-133 | Two declarations with the same type and name come from repeated subnet names, repeated declared-port names, or repeated route descriptions. |
| Collisions.DistinctGivesCollisionFree | nodejs/src/index.ts:89-133 | Distinct logical names give a log without two declarations of one type and name. |
| Collisions.CollisionFreeGivesDistinct | nodejs/src/index.ts:89-133 | A log without such collisions means the logical names were distinct. |
| Collisions.CollisionFreeIffDistinct | nodejs/src/index.ts:89-133 | The log is collision free iff subnet names, declared-port names and (when construction completed) route descriptions are distinct. |

## Left out

- The Pulumi and OpenStack resource constructors, `super(...)` registration, provider
  options and `registerOutputs`. Each construction is an appended declaration. The
  registered outputs are the object's `registered` field.
- The asynchronous resolution of resource ids and the engine's parallel scheduling.
  Ids are handles: positions in the log.
- The passthrough resource properties (CIDR, IP version, gateway, admin state, ...).
  They are an uninterpreted map of supplied values that is spread and stripped
  exactly as the code does. A port's `selfNetwork` and `networkId` are separate
  fields of its arguments, so the passthrough map holds neither key; one placed
  there is dropped.
- The thrown JavaScript exception is modelled as a returned `Error` value, kept in
  the object's `thrown` field. Its message text is `Message`.
- Builder.TargetNetwork: a supplied value other than a string or a boolean counts as
  truthy, so a numeric `networkId` of 0 or NaN, which JavaScript treats as falsy, is
  not modelled.
- NetworkComponent.Network.CreateSubnet: a subnet whose logical name is `__proto__`
  replaces the registry object's prototype instead of adding an own key. The model
  treats it as an ordinary key.

## Findings

| source | as written | input that shows it | evidently intended | confidence | as-written member | corrected member |
|---|---|---|---|---|---|---|
| nodejs/src/index.ts:141-143 | the registry is a plain `{}` (line 43), so `this.subnetMap[name]` also finds `Object.prototype` members, which are truthy, so the missing-subnet check passes and `s.id` is `undefined` | any configuration without a subnet named "constructor", then `subnetId("constructor")` | throw the "Subnet … not found in component …" error for every name that was never registered | not executed | NetworkComponent.Network.SubnetIdAsWritten (discrepancy in NetworkComponent.PrototypeNameAnswersUndefined) | NetworkComponent.Network.SubnetId |
| nodejs/src/index.ts:27 | the routes are documented as added once at least one interface is present, but a route's `dependsOn` (line 137) lists only subnets and ports, and no chain of prerequisites from a route reaches an interface, so the engine may create a route before every interface | one subnet "a", no extra port, one route: the route at position 4 does not reach the interface `<base>-subnet-a-if` at position 3 | each route also depends on the interfaces of the subnets and ports declared before it | not executed | RouteOrdering.RoutesNeedNoInterface (input in RouteOrdering.RouteSkipsTheInterface) | RouteOrdering.RoutesFollowAnInterface (about RouteOrdering.BuildIntended) |

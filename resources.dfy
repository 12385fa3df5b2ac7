/** The data the component consumes and emits: its configuration records, the
    declarations it hands to the provisioning engine, and its two errors. */
module Resources {
  import opened Wrappers

  /** Stands for a resource's provider-assigned id (a `pulumi.Output<string>`): the
      position of the resource's declaration in the declaration log. */
  type Handle = nat

  /** A value the caller supplies and the component passes through untouched:
      a plain string, a boolean, or anything else (a number, a list, an output of
      another stack) kept uninterpreted. */
  datatype Input = Str(s: string) | Flag(b: bool) | Other(token: string)

  /** JavaScript truthiness of a supplied value: the empty string and `false` are
      falsy; anything else, an output object included, is truthy. */
  predicate Truthy(v: Input) {
    match v
    case Str(s) => s != ""
    case Flag(b) => b
    case Other(_) => true
  }

  /** A property of a declaration: a supplied value, the id of a resource this
      component declared, or a key explicitly set to `undefined`. */
  datatype Value = Lit(v: Input) | Id(handle: Handle) | Undefined

  /** JavaScript truthiness of a property value; an id is an output object. */
  predicate Defined(v: Value) {
    match v
    case Lit(x) => Truthy(x)
    case Id(_) => true
    case Undefined => false
  }

  /** The passthrough part of a configuration record (CIDR, IP version, admin state, ...). */
  type Args = map<string, Input>

  /** The property bag of a declaration. */
  type Props = map<string, Value>

  /** Spreading a configuration record into a declaration's properties. */
  function Lift(args: Args): (p: Props)
    ensures p.Keys == args.Keys
    ensures forall k :: k in p ==> p[k] == Lit(args[k])
  {
    map k | k in args :: Lit(args[k])
  }

  /** One entry of a subnet list: its logical name and the rest of its subnet arguments. */
  datatype SubnetArgs = SubnetArgs(name: string, rest: Args)

  /** One extra router port: its logical name, the optional `selfNetwork` flag, the
      optional explicit `networkId`, and the rest of its port arguments. */
  datatype PortArgs = PortArgs(name: string, selfNetwork: Option<bool>, networkId: Option<Input>, rest: Args)

  /** One static route: the label used in its resource name and the rest of its route arguments. */
  datatype RouteArgs = RouteArgs(description: string, rest: Args)

  /** The router configuration, with its optional list of extra ports. */
  datatype RouterArgs = RouterArgs(additionalPorts: Option<seq<PortArgs>>, rest: Args)

  /** The network configuration block, which embeds the router, subnet and route configuration. */
  datatype NetworkArgs = NetworkArgs(
    routerConfig: RouterArgs,
    subnets: Option<seq<SubnetArgs>>,
    routes: Option<seq<RouteArgs>>,
    rest: Args)

  /** The component's constructor argument. */
  datatype ComponentArgs = ComponentArgs(networkConfig: NetworkArgs)

  /** The OpenStack networking resource types the component declares. */
  datatype Kind = Router | Network | Subnet | Port | RouterInterface | RouterRoute

  /** The parent a resource is registered under: the component itself or one of its resources. */
  datatype Parent = Component | Resource(handle: Handle)

  /** One `new openstack.networking.X(name, props, { parent, dependsOn })`. */
  datatype Decl = Decl(kind: Kind, name: string, props: Props, parent: Parent, dependsOn: seq<Handle>)

  /** The errors the component throws. */
  datatype Error =
    | MissingNetworkId(port: string)
    | SubnetNotFound(subnet: string, component: string)

  /** The text of the thrown error. */
  function Message(e: Error): string {
    match e
    case MissingNetworkId(port) =>
      "Port \"" + port + "\" must specify networkId when selfNetwork=false."
    case SubnetNotFound(subnet, component) =>
      "Subnet \"" + subnet + "\" not found in component \"" + component + "\"."
  }

  /** The handles a property bag refers to: each becomes an implicit dependency in the engine. */
  function Refs(p: Props): set<Handle> {
    set k | k in p && p[k].Id? :: p[k].handle
  }

  /** Everything a declaration needs to exist before it: its explicit `dependsOn`,
      its parent, and every resource whose id it carries in a property. */
  function Prereqs(d: Decl): set<Handle> {
    (set h | h in d.dependsOn) + (if d.parent.Resource? then {d.parent.handle} else {}) + Refs(d.props)
  }

  /** Every declaration comes after every declaration it needs. */
  ghost predicate Topological(decls: seq<Decl>) {
    forall i, h :: 0 <= i < |decls| && h in Prereqs(decls[i]) ==> h < i
  }
}

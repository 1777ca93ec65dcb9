/** What is configured and what hosts report: tiers, nodes, and which may serve which. */
module Catalogue {
  import opened Placement

  datatype Provider = Firecracker | Tart | EC2 | CodeBuild | Docker | Simulated {
    /** Whether work runs on the machine itself rather than on a purchased shape. */
    predicate RunsOnHost() { Docker? || Firecracker? || Tart? || Simulated? }
  }

  datatype GuestOS = Linux | MacOS | Windows

  /** A shape a remote backend may buy. */
  datatype Shape = Shape(kind: string, vcpu: int, memory: int, arch: string)

  datatype Tier = Tier(
    name: string,
    vcpu: int,
    memory: int,
    guestOS: GuestOS,
    maxConcurrent: nat,
    reserved: nat,
    providers: seq<Provider>,
    node: string,
    site: string,
    arch: string,
    target: string,
    needsCacheAware: bool,
    listsEgress: bool,
    namesTartVerified: bool)

  /** A decision to stop expecting a host to answer. */
  datatype Decommission = Decommission(proven: bool, actor: string)

  /** A registered host as the ledger holds it. */
  datatype Node = Node(
    name: Host,
    provider: Provider,
    site: string,
    vcpu: int,
    memory: int,
    shapes: seq<Shape>,
    wire: nat,
    architectures: seq<string>,
    incarnation: string,
    live: bool,
    drained: bool,
    epoch: nat,
    dispatch: nat,
    decommissioned: Option<Decommission>)

  datatype NodePolicy = NodePolicy(guestOS: seq<GuestOS>, macOSLimit: Option<int>)

  /** What a target's tiers may hold together; a dimension of zero is unbounded. */
  datatype Share = Share(vcpu: int, memory: int)

  /** The configuration one control plane runs under. `tiers` is in label order. */
  datatype Config = Config(
    maxVCPU: int,
    maxMemory: int,
    tiers: seq<Tier>,
    policies: map<Host, NodePolicy>,
    shares: map<string, Share>,
    placement: Policy,
    namesArch: bool,
    leaseTTL: int)

  const UNBOUNDED := 0x7FFF_FFFF_FFFF_FFFF
  const DEFAULT_MACOS_LIMIT := 2
  const MAX_INT32 := 0x7FFF_FFFF
  const CACHE_WIRE := 23
  const WINDOWS_WIRE := 39
  const EGRESS_WIRE := 40
  const TART_VERIFIED_WIRE := 41

  predicate ValidTier(t: Tier) { t.name != "" && t.vcpu > 0 && t.memory > 0 }

  /** The rules the constructor enforces that the arithmetic depends on. */
  ghost predicate ValidConfig(cfg: Config)
  {
    && cfg.maxVCPU > 0 && cfg.maxMemory > 0 && cfg.leaseTTL > 0
    && (forall t :: t in cfg.tiers ==> ValidTier(t))
    && (forall i, j :: 0 <= i < j < |cfg.tiers| ==> cfg.tiers[i].name != cfg.tiers[j].name)
  }

  function TierNamed(tiers: seq<Tier>, name: string): (t: Option<Tier>)
    ensures t.Some? ==> t.value in tiers && t.value.name == name
    ensures t.None? ==> forall u :: u in tiers ==> u.name != name
  {
    if tiers == [] then None
    else if tiers[0].name == name then Some(tiers[0])
    else TierNamed(tiers[1..], name)
  }

  lemma TierNamedUnique(cfg: Config, t: Tier)
    requires ValidConfig(cfg) && t in cfg.tiers
    ensures TierNamed(cfg.tiers, t.name) == Some(t)
  {
    var u := TierNamed(cfg.tiers, t.name).value;
    var i :| 0 <= i < |cfg.tiers| && cfg.tiers[i] == t;
    var j :| 0 <= j < |cfg.tiers| && cfg.tiers[j] == u;
    assert i == j;
  }

  predicate AllowsGuestOS(cfg: Config, h: Host, os: GuestOS)
  {
    h !in cfg.policies || cfg.policies[h].guestOS == [] || os in cfg.policies[h].guestOS
  }

  function MacOSLimit(cfg: Config, h: Host): int
  {
    if h !in cfg.policies then DEFAULT_MACOS_LIMIT
    else if !AllowsGuestOS(cfg, h, MacOS) then 0
    else if cfg.policies[h].macOSLimit.None? then DEFAULT_MACOS_LIMIT
    else cfg.policies[h].macOSLimit.value
  }

  /** A shape holds a tier, on the architecture the tier names where the backend sells by one. */
  predicate Suits(provider: Provider, s: Shape, t: Tier)
  {
    !(t.arch != "" && provider == EC2 && s.arch != t.arch) && s.vcpu >= t.vcpu && s.memory >= t.memory
  }

  /** The first declared shape that holds a tier on a node of this provider. */
  function FirstShape(provider: Provider, shapes: seq<Shape>, t: Tier): (c: Option<Cost>)
    ensures c.Some? ==> c.value.vcpu >= t.vcpu && c.value.memory >= t.memory
    ensures c.Some? ==>
      exists i :: 0 <= i < |shapes| && Suits(provider, shapes[i], t) && c.value == Cost(shapes[i].vcpu, shapes[i].memory, shapes[i].kind) &&
                  forall j :: 0 <= j < i ==> !Suits(provider, shapes[j], t)
    ensures c.None? ==> forall j :: 0 <= j < |shapes| ==> !Suits(provider, shapes[j], t)
  {
    if shapes == [] then None
    else if Suits(provider, shapes[0], t) then Some(Cost(shapes[0].vcpu, shapes[0].memory, shapes[0].kind))
    else
      var rest := FirstShape(provider, shapes[1..], t);
      assert forall j :: 0 < j < |shapes| ==> shapes[j] == shapes[1..][j - 1];
      rest
  }

  /** What one lease of a tier really consumes on a host: the request where the host is the
      machine, the shape bought where the backend sells shapes, and nothing where none fits. */
  function NodeCost(n: Node, t: Tier): (c: Option<Cost>)
    ensures c.Some? ==> c.value.vcpu >= t.vcpu && c.value.memory >= t.memory
  {
    if n.provider.RunsOnHost() then Some(Cost(t.vcpu, t.memory, ""))
    else FirstShape(n.provider, n.shapes, t)
  }

  function WireFloor(t: Tier): nat
  {
    var guest := if t.guestOS == Windows then WINDOWS_WIRE else 0;
    if t.needsCacheAware && CACHE_WIRE > guest then CACHE_WIRE else guest
  }

  /** Whether a tier could be placed on a host at all. */
  predicate Eligible(cfg: Config, n: Node, t: Tier)
  {
    && (t.node != "" ==> n.name == t.node)
    && (t.site != "" ==> n.site == t.site)
    && n.provider in t.providers
    && AllowsGuestOS(cfg, n.name, t.guestOS)
    && (t.arch != "" ==> t.arch in n.architectures)
    && NodeCost(n, t).Some?
    && n.wire >= WireFloor(t)
    && (t.listsEgress ==> n.wire >= EGRESS_WIRE)
    && (t.namesTartVerified && n.provider == Tart ==> n.wire >= TART_VERIFIED_WIRE)
  }

  function EligibleFrom(cfg: Config, rows: seq<Node>, t: Tier): (out: seq<Node>)
    ensures forall n :: n in out <==> n in rows && Eligible(cfg, n, t)
  {
    if rows == [] then []
    else
      var last := rows[|rows| - 1];
      assert rows == rows[..|rows| - 1] + [last];
      EligibleFrom(cfg, rows[..|rows| - 1], t) + if Eligible(cfg, last, t) then [last] else []
  }

  function NamesOf(rows: seq<Node>): (out: seq<Host>)
    ensures |out| == |rows|
    ensures forall i :: 0 <= i < |rows| ==> out[i] == rows[i].name
  {
    seq(|rows|, i requires 0 <= i < |rows| => rows[i].name)
  }

  lemma {:induction false} EligibleDistinct(cfg: Config, rows: seq<Node>, t: Tier)
    requires Distinct(NamesOf(rows))
    ensures Distinct(NamesOf(EligibleFrom(cfg, rows, t)))
  {
    if rows != [] {
      var front, last := rows[..|rows| - 1], rows[|rows| - 1];
      assert NamesOf(front) == NamesOf(rows)[..|rows| - 1];
      EligibleDistinct(cfg, front, t);
      var e := EligibleFrom(cfg, front, t);
      forall i | 0 <= i < |e| ensures e[i].name != last.name {
        assert e[i] in front;
        var j :| 0 <= j < |front| && front[j] == e[i];
        assert NamesOf(rows)[j] != NamesOf(rows)[|rows| - 1];
      }
      if Eligible(cfg, last, t) {
        assert NamesOf(e + [last]) == NamesOf(e) + [last.name];
      } else {
        assert e + [] == e;
      }
    }
  }

  function Index(providers: seq<Provider>, p: Provider): int
  {
    if p !in providers then -1 else FirstIndex(providers, p)
  }

  function FirstIndex(providers: seq<Provider>, p: Provider): nat
    requires p in providers
  {
    if providers[0] == p then 0 else 1 + FirstIndex(providers[1..], p)
  }

  function CostMap(nodes: seq<Node>, t: Tier): (m: map<Host, Cost>)
    ensures forall h :: h in m ==> m[h].vcpu >= t.vcpu && m[h].memory >= t.memory
    ensures forall h :: h in m ==> exists n :: n in nodes && n.name == h && NodeCost(n, t) == Some(m[h])
  {
    if nodes == [] then map[]
    else
      var last := nodes[|nodes| - 1];
      assert nodes == nodes[..|nodes| - 1] + [last];
      var m := CostMap(nodes[..|nodes| - 1], t);
      if NodeCost(last, t).Some? then m[last.name := NodeCost(last, t).value] else m
  }

  function RankMap(nodes: seq<Node>, t: Tier): map<Host, int>
  {
    if nodes == [] then map[]
    else RankMap(nodes[..|nodes| - 1], t)[nodes[|nodes| - 1].name := Index(t.providers, nodes[|nodes| - 1].provider)]
  }

  function SizeMap(nodes: seq<Node>): map<Host, Size>
  {
    if nodes == [] then map[]
    else SizeMap(nodes[..|nodes| - 1])[nodes[|nodes| - 1].name := Size(nodes[|nodes| - 1].vcpu, nodes[|nodes| - 1].memory)]
  }

  /** The placer's view of one tier's candidates. */
  function PlanFor(cfg: Config, rows: seq<Node>, t: Tier): (p: Plan)
    ensures ValidTier(t) ==> PositiveCosts(p)
    ensures forall h :: h in p.cost ==> p.cost[h].vcpu >= t.vcpu && p.cost[h].memory >= t.memory
    ensures p.macOS <==> t.guestOS == MacOS
  {
    var nodes := EligibleFrom(cfg, rows, t);
    Plan(CostMap(nodes, t), RankMap(nodes, t), cfg.placement,
         if cfg.placement == Tightest then SizeMap(nodes) else map[], t.guestOS == MacOS)
  }

  function OrderFor(cfg: Config, rows: seq<Node>, t: Tier): seq<Host>
  {
    NamesOf(EligibleFrom(cfg, rows, t))
  }

  /** What the scale set tells GitHub it can produce: configuration alone. */
  function AdvertisedCeiling(cfg: Config, t: Tier): int
    requires ValidTier(t)
  {
    var ceiling := if t.maxConcurrent > 0 then Min(MAX_INT32, t.maxConcurrent) else MAX_INT32;
    var byVCPU := if cfg.maxVCPU > 0 then Min(ceiling, cfg.maxVCPU / t.vcpu) else ceiling;
    if cfg.maxMemory > 0 then Min(byVCPU, cfg.maxMemory / t.memory) else byVCPU
  }

  /** Every host a lease may be placed on: in contact and taking work. */
  function Placeable(nodes: seq<Node>): (rows: seq<Node>)
    ensures forall n :: n in rows <==> n in nodes && n.live && !n.drained
  {
    if nodes == [] then []
    else
      var last := nodes[|nodes| - 1];
      assert nodes == nodes[..|nodes| - 1] + [last];
      Placeable(nodes[..|nodes| - 1]) + if last.live && !last.drained then [last] else []
  }

  lemma {:induction false} PlaceableDistinct(nodes: seq<Node>)
    requires Distinct(NamesOf(nodes))
    ensures Distinct(NamesOf(Placeable(nodes)))
  {
    if nodes != [] {
      var front, last := nodes[..|nodes| - 1], nodes[|nodes| - 1];
      assert NamesOf(front) == NamesOf(nodes)[..|nodes| - 1];
      PlaceableDistinct(front);
      var e := Placeable(front);
      forall i | 0 <= i < |e| ensures e[i].name != last.name {
        assert e[i] in front;
        var j :| 0 <= j < |front| && front[j] == e[i];
        assert NamesOf(nodes)[j] != NamesOf(nodes)[|nodes| - 1];
      }
      if last.live && !last.drained {
        assert NamesOf(e + [last]) == NamesOf(e) + [last.name];
      } else {
        assert e + [] == e;
      }
    }
  }
}

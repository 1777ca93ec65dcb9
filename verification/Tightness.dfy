/**
 Nothing is held back that could be sold, and no floor is left short that could
 be kept: what headroom and floors come to, in hosts, leases and charges alone.
 */
module Tightness {
  import opened Placement
  import opened Catalogue
  import opened LedgerState
  import opened Fleet
  import opened Floors
  import opened Purchases
  import opened Counting
  import opened Capacity

  /** An open lease of a tier that is on a host in contact, or on none yet. */
  predicate Serving(nodes: seq<Node>, l: Lease, name: string)
  {
    var h := if l.node != "" then l.node else l.target;
    l.tier == name && l.phase != Done && l.phase != Failed && (h == "" || exists n :: n in nodes && n.live && n.name == h)
  }

  /** How many of a tier's leases serve its floor. */
  ghost function ServingLeases(db: Ledger, name: string): nat
  {
    |RowsWhere(db.leases, (l: Lease) => Serving(db.nodes, l, name))|
  }

  ghost function SlotsOf(slots: seq<Lease>, name: string): nat
  {
    |RowsWhere(slots, (l: Lease) => l.tier == name)|
  }

  /** One more lease of a tier would fit a host beside all leases and what else is held: the host itself, a licence
      where the guest needs one, and the share of the tier's target; and no sum passes the largest integer. */
  predicate OneMoreFits(cfg: Config, db: Ledger, t: Tier, n: Node, held: seq<Lease>)
  {
    NodeCost(n, t).Some? &&
    var c, a, b := NodeCost(n, t).value, Used(db.leases, OnHost(n.name)), Used(held, OnHost(n.name));
    && a.vcpu + b.vcpu + c.vcpu <= n.vcpu && a.memory + b.memory + c.memory <= n.memory
    && (t.guestOS == MacOS ==> a.macOS + b.macOS + 1 <= MacOSLimit(cfg, n.name))
    && Used(held, Everywhere).vcpu + c.vcpu <= UNBOUNDED && Used(held, Everywhere).memory + c.memory <= UNBOUNDED
    && (t.target in cfg.shares ==> ShareFits(cfg, db, t.target, c, held))
  }

  /** A charge fits a target's share beside its leases, every lease of a tier nobody knows, and what else is held. */
  predicate ShareFits(cfg: Config, db: Ledger, target: string, c: Cost, held: seq<Lease>)
    requires target in cfg.shares
  {
    var mine := InTiers(LabelsOf(cfg, target));
    var used, stray, kept, share := Used(db.leases, mine), Used(db.leases, OutsideTiers(AllLabels(cfg))), Used(held, mine), cfg.shares[target];
    && (share.vcpu > 0 ==> used.vcpu + stray.vcpu + kept.vcpu + c.vcpu <= share.vcpu)
    && (share.memory > 0 ==> used.memory + stray.memory + kept.memory + c.memory <= share.memory)
  }

  /** A charge fits the deployment beside everything. */
  predicate CeilingFits(cfg: Config, db: Ledger, c: Cost, held: seq<Lease>)
  {
    && Used(db.leases, Everywhere).vcpu + Used(held, Everywhere).vcpu + c.vcpu <= cfg.maxVCPU
    && Used(db.leases, Everywhere).memory + Used(held, Everywhere).memory + c.memory <= cfg.maxMemory
  }

  // ---- What a plan charges ----

  lemma CostStep(front: seq<Node>, last: Node, t: Tier)
    ensures CostMap(front + [last], t) ==
      if NodeCost(last, t).Some? then CostMap(front, t)[last.name := NodeCost(last, t).value] else CostMap(front, t)
  {
    hide NodeCost;
    assert (front + [last])[..|front|] == front;
  }

  lemma {:induction false} CostOf(nodes: seq<Node>, t: Tier, n: Node)
    requires Distinct(NamesOf(nodes)) && n in nodes && NodeCost(n, t).Some?
    ensures n.name in CostMap(nodes, t) && CostMap(nodes, t)[n.name] == NodeCost(n, t).value
  {
    hide NodeCost, CostMap;
    var front, last := nodes[..|nodes| - 1], nodes[|nodes| - 1];
    assert nodes == front + [last];
    CostStep(front, last, t);
    if n != last {
      assert n in front;
      var j :| 0 <= j < |front| && front[j] == n;
      assert NamesOf(nodes)[j] != NamesOf(nodes)[|nodes| - 1];
      assert NamesOf(front) == NamesOf(nodes)[..|nodes| - 1];
      CostOf(front, t, n);
    }
  }

  /** A host a tier may use is offered, at its own charge. */
  lemma OfferedAtCost(cfg: Config, nodes: seq<Node>, t: Tier, n: Node)
    requires ValidNodes(nodes) && n in nodes && n.live && !n.drained && Eligible(cfg, n, t)
    ensures
      var rows := Placeable(nodes);
      && n in rows && n.name in OrderFor(cfg, rows, t)
      && n.name in PlanFor(cfg, rows, t).cost && NodeCost(n, t) == Some(PlanFor(cfg, rows, t).cost[n.name])
  {
    hide NodeCost, CostMap, RankMap, SizeMap;
    var rows := Placeable(nodes);
    PlaceableDistinct(nodes);
    EligibleDistinct(cfg, rows, t);
    EligibleCosts(cfg, n, t);
    CostOf(EligibleFrom(cfg, rows, t), t, n);
    var e := EligibleFrom(cfg, rows, t);
    var i :| 0 <= i < |e| && e[i] == n;
    assert NamesOf(e)[i] == n.name;
  }

  lemma EligibleCosts(cfg: Config, n: Node, t: Tier)
    requires Eligible(cfg, n, t)
    ensures NodeCost(n, t).Some?
  {
    hide NodeCost;
  }

  // ---- A floor's turn ----

  /** Everything held by the time the tier at `j` has had its turn. */
  ghost function HeldBy(cfg: Config, db: Ledger, forTier: string, j: nat): Held
    requires ValidConfig(cfg) && j < |cfg.tiers|
  {
    FloorsUpTo(cfg, db, forTier, FreeRows(cfg, Placeable(db.nodes), db.leases), Size(0, 0), j + 1)
  }

  lemma ServingIsMissing(cfg: Config, db: Ledger, t: Tier)
    ensures Missing(cfg, db, t) == t.reserved - ServingLeases(db, t.name)
  {
    hide Used, Matches, Serving, RowsWhere;
    var serving := (l: Lease) => Serving(db.nodes, l, t.name);
    forall l: Lease ensures serving(l) <==> Matches(l, TierOnHosts(t.name, LiveNames(db.nodes))) {
      ServingMatches(db.nodes, l, t.name);
    }
    UsedCounts(db.leases, TierOnHosts(t.name, LiveNames(db.nodes)), serving);
  }

  lemma ServingMatches(nodes: seq<Node>, l: Lease, name: string)
    ensures Serving(nodes, l, name) <==> Matches(l, TierOnHosts(name, LiveNames(nodes)))
  {
  }

  /** The tier is one of the first `k`. */
  predicate IsAmong(cfg: Config, name: string, k: nat)
    requires k <= |cfg.tiers|
  {
    exists i :: 0 <= i < k && name == cfg.tiers[i].name
  }

  /** A tier's slots are those its own turn held: none before it, none after. */
  lemma {:induction false} SlotsBefore(cfg: Config, db: Ledger, forTier: string, free: Free, k: nat, j: nat)
    requires ValidConfig(cfg) && ValidNodes(db.nodes) && k <= |cfg.tiers| && j < |cfg.tiers|
    ensures
      var slots := FloorsUpTo(cfg, db, forTier, free, Size(0, 0), k).slots;
      && (k <= j ==> forall l :: l in slots ==> l.tier != cfg.tiers[j].name)
      && (forall l :: l in slots ==> IsAmong(cfg, l.tier, k))
  {
    hide HoldFloor, Missing, FloorLimit, SlotIsPlaced;
    if k > 0 {
      SlotsBefore(cfg, db, forTier, free, k - 1, j);
      var t, prev := cfg.tiers[k - 1], FloorsUpTo(cfg, db, forTier, free, Size(0, 0), k - 1);
      var missing := Missing(cfg, db, t);
      if t.name != forTier && t.reserved != 0 && missing > 0 {
        HoldFloorPlaces(cfg, db, t, missing, prev.free, FloorLimit(cfg, db, forTier, t, Size(0, 0), prev.slots));
      }
    }
  }

  /** Later turns only add slots of other tiers. */
  lemma {:induction false} SlotsAfter(cfg: Config, db: Ledger, forTier: string, free: Free, k: nat, j: nat)
    requires ValidConfig(cfg) && ValidNodes(db.nodes) && j < k <= |cfg.tiers|
    ensures
      var early, late := FloorsUpTo(cfg, db, forTier, free, Size(0, 0), j + 1).slots, FloorsUpTo(cfg, db, forTier, free, Size(0, 0), k).slots;
      |early| <= |late| && late[..|early|] == early && forall i :: |early| <= i < |late| ==> late[i].tier != cfg.tiers[j].name
    decreases k
  {
    hide HoldFloor, Missing, FloorLimit, SlotIsPlaced;
    if k > j + 1 {
      SlotsAfter(cfg, db, forTier, free, k - 1, j);
      var t, prev := cfg.tiers[k - 1], FloorsUpTo(cfg, db, forTier, free, Size(0, 0), k - 1);
      var missing := Missing(cfg, db, t);
      if t.name != forTier && t.reserved != 0 && missing > 0 {
        var more := HoldFloor(cfg, db, t, missing, prev.free, FloorLimit(cfg, db, forTier, t, Size(0, 0), prev.slots)).slots;
        HoldFloorPlaces(cfg, db, t, missing, prev.free, FloorLimit(cfg, db, forTier, t, Size(0, 0), prev.slots));
        forall i | 0 <= i < |more| ensures more[i].tier != cfg.tiers[j].name {
          assert more[i] in more;
        }
      }
    }
  }

  /** What a share leaves a draw is no less than what primitive sums leave one more. */
  lemma ShareBlocks(cfg: Config, db: Ledger, t: Tier, c: Cost, prev: seq<Lease>, one: seq<Lease>, left: Size)
    requires Positive(c) && AllCharged(prev) && AllCharged(one) && forall l :: l in one ==> l.tier == t.name && Open(l)
    requires t in cfg.tiers
    requires
      var limit, u := FloorLimit(cfg, db, t.name, t, Size(0, 0), prev), Used(one, Everywhere);
      left == Size(Max(limit.vcpu, 0) - u.vcpu, Max(limit.memory, 0) - u.memory)
    requires c.vcpu > left.vcpu || c.memory > left.memory
    ensures
      var held := prev + one;
      || Used(held, Everywhere).vcpu + c.vcpu > UNBOUNDED || Used(held, Everywhere).memory + c.memory > UNBOUNDED
      || (t.target in cfg.shares && !ShareFits(cfg, db, t.target, c, held))
  {
    hide Used, LabelsOf, AllLabels;
    UsedConcat(prev, one, Everywhere);
    UsedNonNegative(prev, Everywhere);
    UsedNonNegative(one, Everywhere);
    if t.target in cfg.shares {
      var mine := InTiers(LabelsOf(cfg, t.target));
      UsedConcat(prev, one, mine);
      InLabels(cfg, t);
      UsedSame(one, mine, Everywhere);
      UsedWithin(prev, mine, Everywhere);
      UsedNonNegative(prev, mine);
    }
  }

  lemma InLabels(cfg: Config, t: Tier)
    requires t in cfg.tiers
    ensures t.name in LabelsOf(cfg, t.target)
  {
  }

  /** Nobody to hand anything back to: the credit is nothing. */
  lemma NoCredit(cfg: Config, db: Ledger, forTier: string, t: Tier, slots: seq<Lease>)
    ensures FloorLimit(cfg, db, forTier, t, Size(0, 0), slots) == FloorLimit(cfg, db, t.name, t, Size(0, 0), slots)
  {
    hide ShareRoom, Used;
  }

  /** When a floor's turn ended short, no host its tier may use could have held one more. */
  lemma ShortFloorHasNoRoom(cfg: Config, db: Ledger, forTier: string, j: nat, n: Node)
    requires ValidConfig(cfg) && ValidNodes(db.nodes) && j < |cfg.tiers|
    requires n in db.nodes && n.live && !n.drained && Eligible(cfg, n, cfg.tiers[j])
    requires
      var t, rows := cfg.tiers[j], Placeable(db.nodes);
      var prev := FloorsUpTo(cfg, db, forTier, FreeRows(cfg, rows, db.leases), Size(0, 0), j);
      var missing, limit := Missing(cfg, db, t), FloorLimit(cfg, db, forTier, t, Size(0, 0), prev.slots);
      t.name != forTier && t.reserved != 0 && missing > 0 && |HoldFloor(cfg, db, t, missing, prev.free, limit).slots| < missing
    ensures !OneMoreFits(cfg, db, cfg.tiers[j], n, HeldBy(cfg, db, forTier, j).slots)
  {
    hide Used, Draw, PlanFor, OrderFor, Placeable, Eligible, FreeRows, Missing, FloorLimit, NodeCost, ShareFits, MacOSLimit, FloorsUpTo, RoomFor;
    var t, rows, h := cfg.tiers[j], Placeable(db.nodes), n.name;
    var free := FreeRows(cfg, rows, db.leases);
    var prev := FloorsUpTo(cfg, db, forTier, free, Size(0, 0), j);
    var missing, limit := Missing(cfg, db, t), FloorLimit(cfg, db, forTier, t, Size(0, 0), prev.slots);
    var p, s, room := PlanFor(cfg, rows, t), OrderFor(cfg, rows, t), Room(prev.free, Max(limit.vcpu, 0), Max(limit.memory, 0));
    var d, one := Draw(p, s, room, missing), HoldFloor(cfg, db, t, missing, prev.free, limit);
    FloorTurnStep(cfg, db, forTier, free, j);
    OfferedAtCost(cfg, db.nodes, t, n);
    OrderIsSound(cfg, db.nodes, t);
    PlaceableDistinct(db.nodes);
    DrawInFull(p, s, room, missing);
    RoomForMeansFits(p, d.room, h);
    DrawDeployment(t, p, s, room, missing, 0);
    FreeAt(cfg, rows, db.leases, n);
    FloorsTake(cfg, db, forTier, free, Size(0, 0), j + 1, h);
    FloorsPlace(cfg, db, forTier, free, Size(0, 0), j);
    HoldFloorPlaces(cfg, db, t, missing, prev.free, limit);
    NoCredit(cfg, db, forTier, t, prev.slots);
    if p.cost[h].vcpu > d.room.vcpu || p.cost[h].memory > d.room.memory {
      ShareBlocks(cfg, db, t, p.cost[h], prev.slots, one.slots, Size(d.room.vcpu, d.room.memory));
    }
  }

  lemma FloorTurnStep(cfg: Config, db: Ledger, forTier: string, free: Free, j: nat)
    requires ValidConfig(cfg) && j < |cfg.tiers|
    ensures
      var t, prev, next := cfg.tiers[j], FloorsUpTo(cfg, db, forTier, free, Size(0, 0), j), FloorsUpTo(cfg, db, forTier, free, Size(0, 0), j + 1);
      var missing := Missing(cfg, db, t);
      if t.name == forTier || t.reserved == 0 || missing <= 0 then next == prev
      else
        var one := HoldFloor(cfg, db, t, missing, prev.free, FloorLimit(cfg, db, forTier, t, Size(0, 0), prev.slots));
        next == Held(one.free, prev.slots + one.slots)
  {
    hide HoldFloor, Missing, FloorLimit;
  }

  // ---- Floors are kept ----

  /** A tier's floor is met by its leases and the slots held for it, and not beyond it, or was kept as far as any host
      it may use had room when its turn came, with nothing held by then but its own slots and those of tiers before. */
  ghost predicate FloorMet(cfg: Config, db: Ledger, j: nat, slots: seq<Lease>)
    requires j < |cfg.tiers|
  {
    var u := cfg.tiers[j];
    var serving, held := ServingLeases(db, u.name), SlotsOf(slots, u.name);
    && (held > 0 ==> serving + held <= u.reserved)
    && (serving + held >= u.reserved || exists k :: ShortAt(cfg, db, j, slots, k))
  }

  ghost predicate ShortAt(cfg: Config, db: Ledger, j: nat, slots: seq<Lease>, k: int)
    requires j < |cfg.tiers|
  {
    && 0 <= k <= |slots|
    && (forall i :: 0 <= i < k ==> IsAmong(cfg, slots[i].tier, j + 1))
    && (forall i :: k <= i < |slots| ==> slots[i].tier != cfg.tiers[j].name)
    && forall n :: n in db.nodes && n.live && !n.drained && Eligible(cfg, n, cfg.tiers[j]) ==>
         !OneMoreFits(cfg, db, cfg.tiers[j], n, slots[..k])
  }

  /** Every other tier's floor. */
  ghost predicate FloorsMet(cfg: Config, db: Ledger, forTier: string, slots: seq<Lease>)
  {
    forall j :: 0 <= j < |cfg.tiers| && cfg.tiers[j].name != forTier && cfg.tiers[j].reserved > 0 ==> FloorMet(cfg, db, j, slots)
  }

  lemma FloorIsMet(cfg: Config, db: Ledger, t: Tier, j: nat)
    requires ValidConfig(cfg) && ValidNodes(db.nodes) && j < |cfg.tiers| && cfg.tiers[j].name != t.name && cfg.tiers[j].reserved > 0
    ensures FloorMet(cfg, db, j, FloorsFor(cfg, db, t).slots)
  {
    hide Used, FreeRows, Placeable, FloorsUpTo, HoldFloor, Missing, FloorLimit, OneMoreFits, Eligible, SlotIsPlaced, RowsWhere, ServingLeases, SlotsOf;
    var u, free := cfg.tiers[j], FreeRows(cfg, Placeable(db.nodes), db.leases);
    var all, early := FloorsFor(cfg, db, t).slots, HeldBy(cfg, db, t.name, j).slots;
    var prev := FloorsUpTo(cfg, db, t.name, free, Size(0, 0), j);
    var missing, limit := Missing(cfg, db, u), FloorLimit(cfg, db, t.name, u, Size(0, 0), prev.slots);
    ServingIsMissing(cfg, db, u);
    FloorTurnStep(cfg, db, t.name, free, j);
    SlotsAfter(cfg, db, t.name, free, |cfg.tiers|, j);
    SlotsBefore(cfg, db, t.name, free, j, j);
    SlotsBefore(cfg, db, t.name, free, j + 1, j);
    HeldCount(cfg, db, t.name, j, all);
    if missing > 0 && |HoldFloor(cfg, db, u, missing, prev.free, limit).slots| < missing {
      forall n | n in db.nodes && n.live && !n.drained && Eligible(cfg, n, u) ensures !OneMoreFits(cfg, db, u, n, early) {
        ShortFloorHasNoRoom(cfg, db, t.name, j, n);
      }
      assert forall i :: 0 <= i < |early| ==> early[i] in early;
      assert ShortAt(cfg, db, j, all, |early|);
    } else {
      assert ServingLeases(db, u.name) + SlotsOf(all, u.name) >= u.reserved;
    }
    assert all == FloorsFor(cfg, db, t).slots;
  }

  /** How many slots a tier has: what its own turn held, and none where it was not short. */
  lemma HeldCount(cfg: Config, db: Ledger, forTier: string, j: nat, all: seq<Lease>)
    requires ValidConfig(cfg) && ValidNodes(db.nodes) && j < |cfg.tiers| && cfg.tiers[j].name != forTier && cfg.tiers[j].reserved > 0
    requires
      var early := HeldBy(cfg, db, forTier, j).slots;
      |early| <= |all| && all[..|early|] == early && forall i :: |early| <= i < |all| ==> all[i].tier != cfg.tiers[j].name
    ensures
      var u, prev := cfg.tiers[j], FloorsUpTo(cfg, db, forTier, FreeRows(cfg, Placeable(db.nodes), db.leases), Size(0, 0), j);
      var missing, limit := Missing(cfg, db, u), FloorLimit(cfg, db, forTier, u, Size(0, 0), prev.slots);
      SlotsOf(all, u.name) == if missing <= 0 then 0 else |HoldFloor(cfg, db, u, missing, prev.free, limit).slots|
    ensures Missing(cfg, db, cfg.tiers[j]) > 0 ==> SlotsOf(all, cfg.tiers[j].name) <= Missing(cfg, db, cfg.tiers[j])
  {
    hide Used, FreeRows, Placeable, FloorsUpTo, Missing, FloorLimit, SlotIsPlaced, RowsWhere, SlotsOf, PlanFor, OrderFor, HoldFloor;
    var u, free := cfg.tiers[j], FreeRows(cfg, Placeable(db.nodes), db.leases);
    var prev, early := FloorsUpTo(cfg, db, forTier, free, Size(0, 0), j), HeldBy(cfg, db, forTier, j).slots;
    var missing, limit := Missing(cfg, db, u), FloorLimit(cfg, db, forTier, u, Size(0, 0), prev.slots);
    FloorTurnStep(cfg, db, forTier, free, j);
    SlotsBefore(cfg, db, forTier, free, j, j);
    assert all == early + all[|early|..];
    SlotsOfConcat(early, all[|early|..], u.name);
    NoSlots(all[|early|..], u.name);
    NoSlots(prev.slots, u.name);
    if missing > 0 {
      var one := HoldFloor(cfg, db, u, missing, prev.free, limit).slots;
      HoldFloorPlaces(cfg, db, u, missing, prev.free, limit);
      SlotsOfConcat(prev.slots, one, u.name);
      AllSlots(one, u.name);
      HoldFloorSize(cfg, db, u, missing, prev.free, limit);
    }
  }

  lemma HoldFloorSize(cfg: Config, db: Ledger, t: Tier, missing: nat, free: Free, limit: Size)
    requires ValidTier(t)
    ensures |HoldFloor(cfg, db, t, missing, free, limit).slots| <= missing
  {
    hide Draw, PlanFor, OrderFor, Placeable;
  }

  lemma {:induction false} SlotsOfConcat(a: seq<Lease>, b: seq<Lease>, name: string)
    ensures SlotsOf(a + b, name) == SlotsOf(a, name) + SlotsOf(b, name)
  {
    var mine := (l: Lease) => l.tier == name;
    if b == [] {
      assert a + b == a;
      assert RowsWhere(b, mine) == {};
    } else {
      var k := |b| - 1;
      assert (a + b)[..|a + b| - 1] == a + b[..k];
      SlotsOfConcat(a, b[..k], name);
      RowsWhereNext(a + b, mine);
      RowsWhereNext(b, mine);
    }
  }

  lemma {:induction false} NoSlots(s: seq<Lease>, name: string)
    requires forall i :: 0 <= i < |s| ==> s[i].tier != name
    ensures SlotsOf(s, name) == 0
  {
    assert RowsWhere(s, (l: Lease) => l.tier == name) == {};
  }

  lemma {:induction false} AllSlots(s: seq<Lease>, name: string)
    requires forall l :: l in s ==> l.tier == name
    ensures SlotsOf(s, name) == |s|
  {
    if s == [] {
      NoSlots(s, name);
    } else {
      assert s[|s| - 1] in s;
      AllSlots(s[..|s| - 1], name);
      RowsWhereNext(s, (l: Lease) => l.tier == name);
    }
  }

  /** The slots a purchase is measured beside keep every other tier's floor. */
  lemma FloorsAreMet(cfg: Config, db: Ledger, t: Tier)
    requires ValidConfig(cfg) && ValidNodes(db.nodes)
    ensures FloorsMet(cfg, db, t.name, FloorsFor(cfg, db, t).slots)
  {
    hide FloorMet;
    forall j | 0 <= j < |cfg.tiers| && cfg.tiers[j].name != t.name && cfg.tiers[j].reserved > 0
      ensures FloorMet(cfg, db, j, FloorsFor(cfg, db, t).slots)
    {
      FloorIsMet(cfg, db, t, j);
    }
  }

  // ---- Headroom is all there is ----

  /** A tier's open leases. */
  ghost function OpenLeases(db: Ledger, name: string): nat
  {
    |RowsWhere(db.leases, (l: Lease) => l.tier == name && l.phase != Done && l.phase != Failed)|
  }

  lemma OpenLeasesAre(db: Ledger, name: string)
    ensures OpenLeases(db, name) == Used(db.leases, InTiers({name})).leases
  {
    hide Used, RowsWhere;
    UsedCounts(db.leases, InTiers({name}), (l: Lease) => l.tier == name && l.phase != Done && l.phase != Failed);
  }

  /** No host a tier may use could take one more of it beside the leases, the floors and what was taken. */
  ghost predicate NothingMoreFits(cfg: Config, db: Ledger, t: Tier, held: seq<Lease>)
  {
    forall n :: n in db.nodes && n.live && !n.drained && Eligible(cfg, n, t) ==>
      !(OneMoreFits(cfg, db, t, n, held) && CeilingFits(cfg, db, NodeCost(n, t).value, held))
  }

  lemma ShareAfterIsLimit(cfg: Config, db: Ledger, t: Tier, slots: seq<Lease>)
    ensures ShareAfter(cfg, db.leases, t.target, Size(0, 0), slots) == FloorLimit(cfg, db, t.name, t, Size(0, 0), slots)
  {
    hide Used, LabelsOf, AllLabels;
  }

  /** Every lease the offer holds, drawn. */
  function AllDrawn(cfg: Config, db: Ledger, t: Tier, expiresAt: int): seq<Lease>
    requires ValidConfig(cfg) && ValidTier(t)
  {
    Drawn(t, OfferTo(cfg, db, t), Total(OfferTo(cfg, db, t)), expiresAt)
  }

  lemma OfferIsUsedUp(cfg: Config, db: Ledger, t: Tier, expiresAt: int, n: Node)
    requires ValidConfig(cfg) && t in cfg.tiers && ValidNodes(db.nodes) && n in db.nodes && n.live && !n.drained && Eligible(cfg, n, t)
    ensures
      var held := FloorsFor(cfg, db, t).slots + AllDrawn(cfg, db, t, expiresAt);
      !(OneMoreFits(cfg, db, t, n, held) && CeilingFits(cfg, db, NodeCost(n, t).value, held))
  {
    hide Used, Draw, PlanFor, OrderFor, Placeable, Eligible, FreeRows, NodeCost, ShareFits, MacOSLimit, FloorsUpTo, RoomFor, Fill, ShareAfter;
    var o, rows, h := OfferTo(cfg, db, t), Placeable(db.nodes), n.name;
    var slots, free := FloorsFor(cfg, db, t).slots, FreeRows(cfg, rows, db.leases);
    var k, d := Total(o), Draw(o.plan, o.order, o.room, Total(o));
    var taken := AllDrawn(cfg, db, t, expiresAt);
    OfferedAtCost(cfg, db.nodes, t, n);
    OrderIsSound(cfg, db.nodes, t);
    PlaceableDistinct(db.nodes);
    DrawIsFillPrefix(o.plan, o.order, o.room, k);
    FillExhausts(o.plan, o.order, o.room, h);
    RoomForMeansFits(o.plan, d.room, h);
    DrawDeployment(t, o.plan, o.order, o.room, k, expiresAt);
    DrawAccounts(t, o.plan, o.order, o.room, k, expiresAt, h);
    FreeAt(cfg, rows, db.leases, n);
    FloorsTake(cfg, db, t.name, free, Size(0, 0), |cfg.tiers|, h);
    UsedConcat(slots, taken, OnHost(h));
    UsedConcat(slots, taken, Everywhere);
    FloorSlotsCharged(cfg, db, t);
    DrawnRows(cfg, db, t, o, k, expiresAt);
    ShareAfterIsLimit(cfg, db, t, slots);
    OfferBlocks(cfg, db, t, o.plan.cost[h], slots, taken, Size(d.room.vcpu, d.room.memory));
  }

  lemma OfferBlocks(cfg: Config, db: Ledger, t: Tier, c: Cost, slots: seq<Lease>, taken: seq<Lease>, left: Size)
    requires Positive(c) && AllCharged(slots) && (forall l :: l in taken ==> SoundRow(cfg, l) && l.tier == t.name && Open(l)) && t in cfg.tiers
    requires
      var limit, u := FloorLimit(cfg, db, t.name, t, Size(0, 0), slots), Used(taken, Everywhere);
      var used, floors := Used(db.leases, Everywhere), Used(slots, Everywhere);
      && left.vcpu == Min(Max(cfg.maxVCPU - used.vcpu - floors.vcpu, 0), Max(limit.vcpu, 0)) - u.vcpu
      && left.memory == Min(Max(cfg.maxMemory - used.memory - floors.memory, 0), Max(limit.memory, 0)) - u.memory
    ensures c.vcpu > left.vcpu || c.memory > left.memory ==>
      var held := slots + taken;
      || !CeilingFits(cfg, db, c, held)
      || Used(held, Everywhere).vcpu + c.vcpu > UNBOUNDED || Used(held, Everywhere).memory + c.memory > UNBOUNDED
      || (t.target in cfg.shares && !ShareFits(cfg, db, t.target, c, held))
  {
    hide Used, FloorLimit, ShareFits, SoundRow;
    var limit, u := FloorLimit(cfg, db, t.name, t, Size(0, 0), slots), Used(taken, Everywhere);
    UsedConcat(slots, taken, Everywhere);
    forall l | l in taken ensures Charged(l) {
      SoundCharge(cfg, l);
    }
    UsedNonNegative(taken, Everywhere);
    var share := Size(Max(limit.vcpu, 0) - u.vcpu, Max(limit.memory, 0) - u.memory);
    if c.vcpu > share.vcpu || c.memory > share.memory {
      ShareBlocks(cfg, db, t, c, slots, taken, share);
    }
  }

  lemma SoundCharge(cfg: Config, l: Lease)
    requires SoundRow(cfg, l)
    ensures Charged(l)
  {
  }

  /** Headroom taken in full leaves the tier at its cap, or nothing more that fits anywhere. */
  lemma HeadroomIsAllThereIs(cfg: Config, db: Ledger, t: Tier, expiresAt: int)
    requires ValidConfig(cfg) && t in cfg.tiers && ValidNodes(db.nodes)
    ensures
      var rows := Drawn(t, OfferTo(cfg, db, t), Headroom(cfg, db, t), expiresAt);
      && |rows| == Headroom(cfg, db, t)
      && ((t.maxConcurrent > 0 && OpenLeases(db, t.name) + |rows| >= t.maxConcurrent) ||
          NothingMoreFits(cfg, db, t, FloorsFor(cfg, db, t).slots + rows))
  {
    hide Used, Draw, OfferTo, CeilingFits, Eligible, FloorsFor, Fill, OpenLeases, ShareFits, MacOSLimit, NodeCost;
    var o := OfferTo(cfg, db, t);
    OpenLeasesAre(db, t.name);
    HeadroomWithinTotal(cfg, db, t);
    DrawIsFillPrefix(o.plan, o.order, o.room, Headroom(cfg, db, t));
    if Headroom(cfg, db, t) == Total(o) {
      forall n | n in db.nodes && n.live && !n.drained && Eligible(cfg, n, t)
        ensures
          var held := FloorsFor(cfg, db, t).slots + AllDrawn(cfg, db, t, expiresAt);
          !(OneMoreFits(cfg, db, t, n, held) && CeilingFits(cfg, db, NodeCost(n, t).value, held))
      {
        OfferIsUsedUp(cfg, db, t, expiresAt, n);
      }
    }
  }
}

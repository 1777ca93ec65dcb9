/**
 The overcommit invariant: what open leases are charged never exceeds a host, a
 licence, the deployment ceiling, a target's share or a tier's own cap. What a
 purchase and a resize do to it.
 */
module Capacity {
  import opened Placement
  import opened Catalogue
  import opened LedgerState
  import opened Fleet
  import opened Floors
  import opened Purchases

  predicate FitsHost(cfg: Config, n: Node, leases: seq<Lease>)
  {
    var u := Used(leases, OnHost(n.name));
    u.vcpu <= n.vcpu && u.memory <= n.memory && u.macOS <= Max(MacOSLimit(cfg, n.name), 0)
  }

  predicate FitsDeployment(cfg: Config, leases: seq<Lease>)
  {
    Used(leases, Everywhere).vcpu <= cfg.maxVCPU && Used(leases, Everywhere).memory <= cfg.maxMemory
  }

  predicate FitsCap(t: Tier, leases: seq<Lease>)
  {
    t.maxConcurrent > 0 ==> Used(leases, InTiers({t.name})).leases <= t.maxConcurrent
  }

  /** A target's tiers, and every lease whose tier left the catalogue, inside the target's share. */
  predicate FitsShare(cfg: Config, target: string, leases: seq<Lease>)
    requires target in cfg.shares
  {
    var used, stray := Used(leases, InTiers(LabelsOf(cfg, target))), Used(leases, OutsideTiers(AllLabels(cfg)));
    && (cfg.shares[target].vcpu > 0 ==> used.vcpu + stray.vcpu <= cfg.shares[target].vcpu)
    && (cfg.shares[target].memory > 0 ==> used.memory + stray.memory <= cfg.shares[target].memory)
  }

  /** A row names its machine, never another, and is charged at least what its tier asks. */
  predicate SoundRow(cfg: Config, l: Lease)
  {
    && Charged(l) && l.target != "" && (l.node == "" || l.node == l.target)
    && l.vcpu >= l.requestedVCPU > 0 && l.memory >= l.requestedMemory > 0
    && match TierNamed(cfg.tiers, l.tier)
       case Some(t) => l.requestedVCPU == t.vcpu && l.requestedMemory == t.memory
       case None => true
  }

  /** Nothing is sold twice. */
  ghost predicate WithinLimits(cfg: Config, db: Ledger)
  {
    && ValidNodes(db.nodes)
    && (forall l :: l in db.leases ==> SoundRow(cfg, l))
    && (forall n :: n in db.nodes ==> FitsHost(cfg, n, db.leases))
    && FitsDeployment(cfg, db.leases)
    && (forall t :: t in cfg.tiers ==> FitsCap(t, db.leases))
    && (forall target :: target in cfg.shares ==> FitsShare(cfg, target, db.leases))
  }

  // ---- What a draw from an offer leaves ----

  /** An offer made from a ledger, perhaps with room kept for the owners of held hosts. */
  ghost predicate OfferedFrom(cfg: Config, db: Ledger, t: Tier, o: Offer)
    requires ValidConfig(cfg)
  {
    || o == OfferTo(cfg, db, t)
    || exists holds :: o == KeepFor(cfg, OfferTo(cfg, db, t), holds)
  }

  lemma OfferedAt(cfg: Config, db: Ledger, t: Tier, o: Offer, h: Host)
    requires ValidConfig(cfg) && OfferedFrom(cfg, db, t, o)
    ensures
      var full := OfferTo(cfg, db, t);
      && o.order == full.order && o.plan.macOS == full.plan.macOS
      && (h in o.plan.cost ==> h in full.plan.cost && o.plan.cost[h] == full.plan.cost[h])
      && o.room.vcpu == full.room.vcpu && o.room.memory == full.room.memory
      && At(o.room.free.vcpu, h) <= At(full.room.free.vcpu, h)
      && At(o.room.free.memory, h) <= At(full.room.free.memory, h)
      && At(o.room.free.macOS, h) == At(full.room.free.macOS, h)
  {
    hide OfferTo;
    var full := OfferTo(cfg, db, t);
    if o != full {
      var holds :| o == KeepFor(cfg, full, holds);
      KeepForAt(cfg, full, holds, h);
      if h in holds && TierNamed(cfg.tiers, holds[h]).Some? {
        assert ValidTier(TierNamed(cfg.tiers, holds[h]).value);
      }
    }
  }

  lemma OfferedPositive(cfg: Config, db: Ledger, t: Tier, o: Offer)
    requires ValidConfig(cfg) && ValidTier(t) && OfferedFrom(cfg, db, t, o)
    ensures PositiveCosts(o.plan)
    ensures forall h :: h in o.plan.cost ==> o.plan.cost[h].vcpu >= t.vcpu && o.plan.cost[h].memory >= t.memory
  {
    hide OfferTo;
    forall h | h in o.plan.cost
      ensures Positive(o.plan.cost[h]) && o.plan.cost[h].vcpu >= t.vcpu && o.plan.cost[h].memory >= t.memory
    {
      OfferedAt(cfg, db, t, o, h);
    }
  }

  /** The rows drawn from an offer. */
  function Drawn(t: Tier, o: Offer, n: nat, expiresAt: int): seq<Lease>
    requires PositiveCosts(o.plan)
  {
    NewLeases(t, o.plan, Draw(o.plan, o.order, o.room, n).hosts, expiresAt)
  }

  /** On a host a purchase touched, the leases, the floors held and the purchase fit together. */
  ghost predicate PackedOnHost(cfg: Config, n: Node, leases: seq<Lease>, slots: seq<Lease>, rows: seq<Lease>, macOS: bool)
  {
    var a, b, c := Used(leases, OnHost(n.name)), Used(slots, OnHost(n.name)), Used(rows, OnHost(n.name));
    && a.vcpu + b.vcpu + c.vcpu <= n.vcpu
    && a.memory + b.memory + c.memory <= n.memory
    && (macOS ==> a.macOS + b.macOS + c.macOS <= MacOSLimit(cfg, n.name))
  }

  lemma RowsPackTouchedHost(cfg: Config, db: Ledger, t: Tier, o: Offer, n: nat, expiresAt: int, node: Node)
    requires ValidConfig(cfg) && ValidTier(t) && ValidNodes(db.nodes) && OfferedFrom(cfg, db, t, o)
    requires PositiveCosts(o.plan) && node in db.nodes
    requires node.name in Draw(o.plan, o.order, o.room, n).hosts
    ensures PackedOnHost(cfg, node, db.leases, FloorsFor(cfg, db, t).slots, Drawn(t, o, n, expiresAt), t.guestOS == MacOS)
  {
    hide Draw, Used, KeepFor, FloorsUpTo, PlanFor, EligibleFrom, FreeRows, Placeable, ShareAfter, NewLeases, OfferedFrom;
    var rows, h := Placeable(db.nodes), node.name;
    var free := FreeRows(cfg, rows, db.leases);
    OfferedAt(cfg, db, t, o, h);
    assert o.order == OrderFor(cfg, rows, t);
    OrderIsSound(cfg, db.nodes, t);
    HostOf(db.nodes, node);
    PlaceableDistinct(db.nodes);
    FreeAt(cfg, rows, db.leases, node);
    FloorsTake(cfg, db, t.name, free, Size(0, 0), |cfg.tiers|, h);
    DrawAccounts(t, o.plan, o.order, o.room, n, expiresAt, h);
  }

  /** A host named by a placeable row is that row. */
  lemma HostOf(nodes: seq<Node>, node: Node)
    requires ValidNodes(nodes) && node in nodes
    ensures (exists m :: m in Placeable(nodes) && m.name == node.name) ==> node in Placeable(nodes)
  {
    if m :| m in Placeable(nodes) && m.name == node.name {
      NodeNamedUnique(nodes, node);
      NodeNamedUnique(nodes, m);
    }
  }

  lemma DrawnRows(cfg: Config, db: Ledger, t: Tier, o: Offer, n: nat, expiresAt: int)
    requires ValidConfig(cfg) && t in cfg.tiers && ValidNodes(db.nodes) && OfferedFrom(cfg, db, t, o)
    requires PositiveCosts(o.plan)
    ensures forall l :: l in Drawn(t, o, n, expiresAt) ==>
      SoundRow(cfg, l) && Open(l) && l.tier == t.name && l.macOSSlot == (t.guestOS == MacOS) && l.node == ""
    ensures forall l :: l in Drawn(t, o, n, expiresAt) ==> l.target in Draw(o.plan, o.order, o.room, n).hosts
    ensures |Drawn(t, o, n, expiresAt)| <= n
  {
    hide Draw, OfferTo, KeepFor, PlanFor, OrderFor, Placeable, OfferedFrom;
    var rows := Drawn(t, o, n, expiresAt);
    var hosts := Draw(o.plan, o.order, o.room, n).hosts;
    OrderIsSound(cfg, db.nodes, t);
    OfferedPositive(cfg, db, t, o);
    TierNamedUnique(cfg, t);
    OfferedAt(cfg, db, t, o, "");
    forall l | l in rows
      ensures SoundRow(cfg, l) && Open(l) && l.tier == t.name && l.macOSSlot == (t.guestOS == MacOS) && l.node == ""
      ensures l.target in hosts
    {
      var i :| 0 <= i < |rows| && rows[i] == l;
      assert hosts[i] in hosts;
    }
  }

  lemma RowsFitHosts(cfg: Config, db: Ledger, t: Tier, o: Offer, n: nat, expiresAt: int, node: Node)
    requires ValidConfig(cfg) && t in cfg.tiers && ValidNodes(db.nodes) && OfferedFrom(cfg, db, t, o)
    requires PositiveCosts(o.plan) && node in db.nodes && FitsHost(cfg, node, db.leases)
    ensures FitsHost(cfg, node, db.leases + Drawn(t, o, n, expiresAt))
  {
    hide Draw, Used, KeepFor, FloorsFor, OfferTo, MacOSLimit, Drawn, OfferedFrom, ValidNodes, SoundRow;
    var rows := Drawn(t, o, n, expiresAt);
    UsedConcat(db.leases, rows, OnHost(node.name));
    DrawnRows(cfg, db, t, o, n, expiresAt);
    if node.name in Draw(o.plan, o.order, o.room, n).hosts {
      RowsPackTouchedHost(cfg, db, t, o, n, expiresAt, node);
      FloorSlotsCharged(cfg, db, t);
      UsedNonNegative(FloorsFor(cfg, db, t).slots, OnHost(node.name));
      if t.guestOS != MacOS {
        NoLicences(rows, OnHost(node.name));
      }
    } else {
      UsedNone(rows, OnHost(node.name));
    }
  }

  lemma FloorSlotsCharged(cfg: Config, db: Ledger, t: Tier)
    requires ValidConfig(cfg) && ValidNodes(db.nodes)
    ensures AllCharged(FloorsFor(cfg, db, t).slots)
  {
    FloorsPlace(cfg, db, t.name, FreeRows(cfg, Placeable(db.nodes), db.leases), Size(0, 0), |cfg.tiers|);
  }

  /** A non-empty purchase leaves the ceiling room for itself and for every floor held. */
  lemma RowsFitDeployment(cfg: Config, db: Ledger, t: Tier, o: Offer, n: nat, expiresAt: int)
    requires ValidConfig(cfg) && t in cfg.tiers && ValidNodes(db.nodes) && OfferedFrom(cfg, db, t, o)
    requires PositiveCosts(o.plan)
    ensures
      var rows, slots := Drawn(t, o, n, expiresAt), FloorsFor(cfg, db, t).slots;
      rows != [] ==>
        && Used(db.leases, Everywhere).vcpu + Used(slots, Everywhere).vcpu + Used(rows, Everywhere).vcpu <= cfg.maxVCPU
        && Used(db.leases, Everywhere).memory + Used(slots, Everywhere).memory + Used(rows, Everywhere).memory <= cfg.maxMemory
  {
    hide Draw, Used, KeepFor, FloorsFor, ShareAfter, PlanFor, OrderFor, Placeable, OfferedFrom;
    DrawnBound(cfg, db, t, o, n, expiresAt);
  }

  lemma DrawnBound(cfg: Config, db: Ledger, t: Tier, o: Offer, n: nat, expiresAt: int)
    requires ValidConfig(cfg) && t in cfg.tiers && ValidNodes(db.nodes) && OfferedFrom(cfg, db, t, o)
    requires PositiveCosts(o.plan)
    ensures
      var rows, room := Drawn(t, o, n, expiresAt), OfferTo(cfg, db, t).room;
      && (rows != [] ==> 0 < Used(rows, Everywhere).vcpu <= room.vcpu && 0 < Used(rows, Everywhere).memory <= room.memory)
      && Used(rows, Everywhere).leases == |rows|
  {
    hide Draw, Used, KeepFor, OfferTo, PlanFor, OrderFor, Placeable, OfferedFrom;
    var rows := Drawn(t, o, n, expiresAt);
    OfferedAt(cfg, db, t, o, "");
    OrderIsSound(cfg, db.nodes, t);
    DrawDeployment(t, o.plan, o.order, o.room, n, expiresAt);
    DrawnRows(cfg, db, t, o, n, expiresAt);
    UsedNonNegative(rows, Everywhere);
  }

  lemma LabelsExact(cfg: Config, t: Tier, target: string)
    requires ValidConfig(cfg) && t in cfg.tiers
    ensures t.name in LabelsOf(cfg, target) <==> t.target == target
    ensures t.name in AllLabels(cfg)
  {
    if t.name in LabelsOf(cfg, target) {
      var u :| u in cfg.tiers && u.target == target && u.name == t.name;
      TierNamedUnique(cfg, t);
      TierNamedUnique(cfg, u);
    }
  }

  lemma RowsFitShare(cfg: Config, db: Ledger, t: Tier, o: Offer, n: nat, expiresAt: int, target: string)
    requires ValidConfig(cfg) && t in cfg.tiers && ValidNodes(db.nodes) && OfferedFrom(cfg, db, t, o)
    requires PositiveCosts(o.plan) && target in cfg.shares && FitsShare(cfg, target, db.leases)
    ensures FitsShare(cfg, target, db.leases + Drawn(t, o, n, expiresAt))
  {
    hide Draw, Used, KeepFor, FloorsFor, PlanFor, OrderFor, Placeable, OfferedFrom, LabelsOf, AllLabels, Drawn;
    var rows := Drawn(t, o, n, expiresAt);
    var mine, strays := InTiers(LabelsOf(cfg, target)), OutsideTiers(AllLabels(cfg));
    UsedConcat(db.leases, rows, mine);
    UsedConcat(db.leases, rows, strays);
    DrawnRows(cfg, db, t, o, n, expiresAt);
    LabelsExact(cfg, t, target);
    UsedNone(rows, strays);
    if t.target != target || rows == [] {
      UsedNone(rows, mine);
    } else {
      DrawnBound(cfg, db, t, o, n, expiresAt);
      UsedWithin(rows, mine, Everywhere);
      FloorSlotsCharged(cfg, db, t);
      UsedNonNegative(FloorsFor(cfg, db, t).slots, mine);
    }
  }

  lemma RowsFitCap(cfg: Config, db: Ledger, t: Tier, o: Offer, n: nat, expiresAt: int, u: Tier)
    requires ValidConfig(cfg) && t in cfg.tiers && u in cfg.tiers && ValidNodes(db.nodes) && OfferedFrom(cfg, db, t, o)
    requires PositiveCosts(o.plan) && FitsCap(u, db.leases) && n <= Headroom(cfg, db, t)
    ensures FitsCap(u, db.leases + Drawn(t, o, n, expiresAt))
  {
    hide Draw, Used, KeepFor, FloorsFor, PlanFor, OrderFor, Placeable, OfferedFrom, Headroom, OfferTo, Drawn;
    var rows, q := Drawn(t, o, n, expiresAt), InTiers({u.name});
    UsedConcat(db.leases, rows, q);
    DrawnRows(cfg, db, t, o, n, expiresAt);
    HeadroomWithinTotal(cfg, db, t);
    if u.name == t.name {
      TierNamedUnique(cfg, t);
      TierNamedUnique(cfg, u);
      DrawnBound(cfg, db, t, o, n, expiresAt);
      UsedWithin(rows, q, Everywhere);
    } else {
      UsedNone(rows, q);
    }
  }

  /** No purchase up to headroom, from held hosts or not, oversells anything. */
  lemma PurchaseKeepsLimits(cfg: Config, db: Ledger, t: Tier, o: Offer, n: nat, expiresAt: int)
    requires ValidConfig(cfg) && t in cfg.tiers && OfferedFrom(cfg, db, t, o) && PositiveCosts(o.plan)
    requires WithinLimits(cfg, db) && n <= Headroom(cfg, db, t)
    ensures WithinLimits(cfg, Inserted(db, Drawn(t, o, n, expiresAt)))
  {
    hide Used, FitsHost, FitsShare, FitsCap, Drawn, OfferedFrom, Headroom, SoundRow, OfferTo;
    var rows := Drawn(t, o, n, expiresAt);
    DrawnRows(cfg, db, t, o, n, expiresAt);
    forall node | node in db.nodes ensures FitsHost(cfg, node, db.leases + rows) {
      RowsFitHosts(cfg, db, t, o, n, expiresAt, node);
    }
    forall u | u in cfg.tiers ensures FitsCap(u, db.leases + rows) {
      RowsFitCap(cfg, db, t, o, n, expiresAt, u);
    }
    forall target | target in cfg.shares ensures FitsShare(cfg, target, db.leases + rows) {
      RowsFitShare(cfg, db, t, o, n, expiresAt, target);
    }
    RowsFitDeployment(cfg, db, t, o, n, expiresAt);
    UsedConcat(db.leases, rows, Everywhere);
    if rows == [] {
      assert db.leases + rows == db.leases;
    }
    FloorSlotsCharged(cfg, db, t);
    UsedNonNegative(FloorsFor(cfg, db, t).slots, Everywhere);
  }

  /** A packing of the floors beside a purchase: every slot sits on a host its own tier may use, and with all
      leases the slots and the purchase fit every host that either of them touches, the licences of a macOS slot or
      row there included, and the deployment. */
  ghost predicate FloorsPacked(cfg: Config, db: Ledger, t: Tier, slots: seq<Lease>, rows: seq<Lease>)
  {
    && (forall l :: l in slots ==> SlotIsPlaced(cfg, db.nodes, l) && l.tier != t.name)
    && (forall node: Node, l: Lease :: node in db.nodes && l in slots + rows && l.target == node.name ==>
          PackedOnHost(cfg, node, db.leases, slots, rows, l.macOSSlot))
    && Used(db.leases, Everywhere).vcpu + Used(slots, Everywhere).vcpu + Used(rows, Everywhere).vcpu <= cfg.maxVCPU
    && Used(db.leases, Everywhere).memory + Used(slots, Everywhere).memory + Used(rows, Everywhere).memory <= cfg.maxMemory
  }

  /** After a non-empty purchase every floor slot held still has its place. */
  lemma PurchaseKeepsFloors(cfg: Config, db: Ledger, t: Tier, o: Offer, n: nat, expiresAt: int)
    requires ValidConfig(cfg) && t in cfg.tiers && ValidNodes(db.nodes) && OfferedFrom(cfg, db, t, o)
    requires PositiveCosts(o.plan) && Drawn(t, o, n, expiresAt) != []
    ensures FloorsPacked(cfg, db, t, FloorsFor(cfg, db, t).slots, Drawn(t, o, n, expiresAt))
  {
    hide Used, Drawn, OfferedFrom, OfferTo, PackedOnHost, SlotIsPlaced, Draw, FloorsUpTo, FreeRows, Placeable;
    var rows, slots := Drawn(t, o, n, expiresAt), FloorsFor(cfg, db, t).slots;
    RowsFitDeployment(cfg, db, t, o, n, expiresAt);
    FloorsPlace(cfg, db, t.name, FreeRows(cfg, Placeable(db.nodes), db.leases), Size(0, 0), |cfg.tiers|);
    forall node: Node, l: Lease | node in db.nodes && l in slots + rows && l.target == node.name
      ensures PackedOnHost(cfg, node, db.leases, slots, rows, l.macOSSlot)
    {
      TouchedHostPacks(cfg, db, t, o, n, expiresAt, node, l);
    }
  }

  lemma TouchedHostPacks(cfg: Config, db: Ledger, t: Tier, o: Offer, n: nat, expiresAt: int, node: Node, l: Lease)
    requires ValidConfig(cfg) && t in cfg.tiers && ValidNodes(db.nodes) && OfferedFrom(cfg, db, t, o) && PositiveCosts(o.plan)
    requires node in db.nodes && l.target == node.name && l in FloorsFor(cfg, db, t).slots + Drawn(t, o, n, expiresAt)
    requires l in FloorsFor(cfg, db, t).slots ==> SlotIsPlaced(cfg, db.nodes, l)
    ensures PackedOnHost(cfg, node, db.leases, FloorsFor(cfg, db, t).slots, Drawn(t, o, n, expiresAt), l.macOSSlot)
  {
    hide Used, Drawn, OfferedFrom, OfferTo, SlotIsPlaced, Draw, FloorsFor, SoundRow, MacOSLimit;
    var rows, slots := Drawn(t, o, n, expiresAt), FloorsFor(cfg, db, t).slots;
    DrawnRows(cfg, db, t, o, n, expiresAt);
    if forall r :: r in rows ==> r.target != node.name {
      FloorsPackHost(cfg, db, t, rows, node, l);
    } else {
      RowsPackTouchedHost(cfg, db, t, o, n, expiresAt, node);
      if l in slots && t.guestOS != MacOS {
        FloorsPackHost(cfg, db, t, [], node, l);
        UsedNone([], OnHost(node.name));
        NoLicences(rows, OnHost(node.name));
      }
    }
  }

  lemma FloorsPackHost(cfg: Config, db: Ledger, t: Tier, rows: seq<Lease>, node: Node, l: Lease)
    requires ValidConfig(cfg) && ValidNodes(db.nodes) && node in db.nodes
    requires l in FloorsFor(cfg, db, t).slots && l.target == node.name && SlotIsPlaced(cfg, db.nodes, l)
    requires forall r :: r in rows ==> r.target != node.name && r.node == ""
    ensures PackedOnHost(cfg, node, db.leases, FloorsFor(cfg, db, t).slots, rows, l.macOSSlot)
  {
    hide Used, FloorsUpTo, FreeRows, Placeable, Eligible, NodeCost;
    var free := FreeRows(cfg, Placeable(db.nodes), db.leases);
    HostOf(db.nodes, node);
    PlaceableDistinct(db.nodes);
    FreeAt(cfg, Placeable(db.nodes), db.leases, node);
    FloorsTake(cfg, db, t.name, free, Size(0, 0), |cfg.tiers|, node.name);
    FloorsSolvent(cfg, db, t.name, free, Size(0, 0), |cfg.tiers|, node.name);
    UsedNone(rows, OnHost(node.name));
  }

  // ---- A tier's open leases stay within what it advertises ----

  /** A tier never holds more open leases than the ceiling it advertises, up to the protocol's cap. */
  lemma OpenWithinAdvertised(cfg: Config, db: Ledger, t: Tier)
    requires ValidConfig(cfg) && t in cfg.tiers && WithinLimits(cfg, db)
    ensures Min(Used(db.leases, InTiers({t.name})).leases, MAX_INT32) <= AdvertisedCeiling(cfg, t)
  {
    hide Used, FitsHost, FitsShare;
    var q := InTiers({t.name});
    var open := Used(db.leases, q).leases;
    forall l | l in db.leases && Matches(l, q) ensures l.vcpu >= t.vcpu && l.memory >= t.memory {
      assert SoundRow(cfg, l);
      TierNamedUnique(cfg, t);
    }
    UsedAtLeast(db.leases, q, t.vcpu, t.memory);
    assert forall l :: l in db.leases ==> SoundRow(cfg, l);
    UsedWithin(db.leases, q, Everywhere);
    AtMostQuotient(open, t.vcpu, cfg.maxVCPU);
    AtMostQuotient(open, t.memory, cfg.maxMemory);
    assert FitsCap(t, db.leases);
  }

  lemma AtMostQuotient(n: int, size: int, total: int)
    requires size > 0 && n * size <= total
    ensures n <= total / size
  {
    var q := total / size;
    assert total == q * size + total % size;
    if n >= q + 1 {
      OneMore(q, size);
      AtLeastTimes(n, q + 1, size);
    }
  }

  /** The ceiling is the largest count a tier's cap, the deployment and the protocol all allow. */
  lemma CeilingIsTight(cfg: Config, t: Tier, n: nat)
    requires ValidConfig(cfg) && ValidTier(t)
    ensures n <= AdvertisedCeiling(cfg, t) <==>
      n <= MAX_INT32 && (t.maxConcurrent > 0 ==> n <= t.maxConcurrent) && n * t.vcpu <= cfg.maxVCPU && n * t.memory <= cfg.maxMemory
  {
    QuotientBound(n, t.vcpu, cfg.maxVCPU);
    QuotientBound(n, t.memory, cfg.maxMemory);
  }

  lemma QuotientBound(n: int, size: int, total: int)
    requires size > 0
    ensures n <= total / size <==> n * size <= total
  {
    if n * size <= total {
      AtMostQuotient(n, size, total);
    }
    if n <= total / size {
      AtLeastTimes(total / size, n, size);
      assert total == (total / size) * size + total % size;
    }
  }

  lemma AtLeastTimes(a: int, b: int, size: int)
    requires a >= b && size > 0
    ensures a * size >= b * size
  {
  }
}

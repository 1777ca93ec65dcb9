/**
 Floors: room held back for other tiers' unmet reservations before anybody is
 offered the machines. What a floor holds is written as the leases it would
 take, so one kind of sum covers both.
 */
module Floors {
  import opened Placement
  import opened Catalogue
  import opened LedgerState
  import opened Fleet

  function LabelsOf(cfg: Config, target: string): set<string>
  {
    set t | t in cfg.tiers && t.target == target :: t.name
  }

  function AllLabels(cfg: Config): set<string>
  {
    set t | t in cfg.tiers :: t.name
  }

  function LiveNames(nodes: seq<Node>): set<Host>
  {
    set n | n in nodes && n.live :: n.name
  }

  /** What a target may still take under its share once `returned` is handed back. */
  function ShareRoom(cfg: Config, leases: seq<Lease>, target: string, returned: Size): Size
  {
    if target !in cfg.shares then Size(UNBOUNDED, UNBOUNDED)
    else
      var share := cfg.shares[target];
      var used := Used(leases, InTiers(LabelsOf(cfg, target)));
      var stray := Used(leases, OutsideTiers(AllLabels(cfg)));
      Size(if share.vcpu > 0 then share.vcpu - used.vcpu - stray.vcpu + returned.vcpu else UNBOUNDED,
           if share.memory > 0 then share.memory - used.memory - stray.memory + returned.memory else UNBOUNDED)
  }

  /** A lease handed back is credited to its own target's share, or to every share when its tier is gone. */
  function CreditTo(cfg: Config, forTier: string, target: string, returned: Size): Size
  {
    match TierNamed(cfg.tiers, forTier)
    case Some(t) => if t.target == target then returned else Size(0, 0)
    case None => returned
  }

  /** How far a tier is below its floor: its open leases on hosts in contact count toward it. */
  function Missing(cfg: Config, db: Ledger, t: Tier): int
  {
    t.reserved - Used(db.leases, TierOnHosts(t.name, LiveNames(db.nodes))).leases
  }

  /** What floors hold: the room left and the leases they would take. */
  datatype Held = Held(free: Free, slots: seq<Lease>)

  /** What is left of a target's share for one of its floors. */
  function FloorLimit(cfg: Config, db: Ledger, forTier: string, t: Tier, returned: Size, slots: seq<Lease>): Size
  {
    if t.target !in cfg.shares then Size(UNBOUNDED, UNBOUNDED)
    else
      var room := ShareRoom(cfg, db.leases, t.target, CreditTo(cfg, forTier, t.target, returned));
      var held := Used(slots, InTiers(LabelsOf(cfg, t.target)));
      Size(room.vcpu - held.vcpu, room.memory - held.memory)
  }

  /** One tier's outstanding reservation, taken off the machines that tier could run on. */
  function HoldFloor(cfg: Config, db: Ledger, t: Tier, missing: nat, free: Free, limit: Size): Held
    requires ValidTier(t)
  {
    var rows := Placeable(db.nodes);
    var p := PlanFor(cfg, rows, t);
    var d := Draw(p, OrderFor(cfg, rows, t), Room(free, Max(limit.vcpu, 0), Max(limit.memory, 0)), missing);
    Held(d.room.free, NewLeases(t, p, d.hosts, 0))
  }

  /** The floors of the first `k` tiers other than `forTier`, held in label order. */
  function FloorsUpTo(cfg: Config, db: Ledger, forTier: string, free: Free, returned: Size, k: nat): Held
    requires ValidConfig(cfg) && k <= |cfg.tiers|
  {
    if k == 0 then Held(free, [])
    else
      var prev := FloorsUpTo(cfg, db, forTier, free, returned, k - 1);
      var t := cfg.tiers[k - 1];
      var missing := Missing(cfg, db, t);
      if t.name == forTier || t.reserved == 0 || missing <= 0 then prev
      else
        var one := HoldFloor(cfg, db, t, missing, prev.free, FloorLimit(cfg, db, forTier, t, returned, prev.slots));
        Held(one.free, prev.slots + one.slots)
  }

  function ReserveFloors(cfg: Config, db: Ledger, forTier: string, free: Free, returned: Size): Held
    requires ValidConfig(cfg)
  {
    FloorsUpTo(cfg, db, forTier, free, returned, |cfg.tiers|)
  }

  /** Hosts are the ledger's primary key and none is nameless. */
  predicate ValidNodes(nodes: seq<Node>)
  {
    Distinct(NamesOf(nodes)) && "" !in NamesOf(nodes)
  }

  lemma OrderIsSound(cfg: Config, nodes: seq<Node>, t: Tier)
    requires ValidNodes(nodes)
    ensures
      var order := OrderFor(cfg, Placeable(nodes), t);
      && Distinct(order) && "" !in order
      && forall h :: h in order ==> exists n :: n in Placeable(nodes) && n.name == h && Eligible(cfg, n, t)
  {
    var rows := Placeable(nodes);
    PlaceableDistinct(nodes);
    EligibleDistinct(cfg, rows, t);
    var e := EligibleFrom(cfg, rows, t);
    forall h | h in OrderFor(cfg, rows, t)
      ensures h != "" && exists n :: n in rows && n.name == h && Eligible(cfg, n, t)
    {
      var i :| 0 <= i < |e| && e[i].name == h;
      assert e[i] in rows && e[i] in nodes;
      var j :| 0 <= j < |nodes| && nodes[j] == e[i];
      assert NamesOf(nodes)[j] == h;
    }
  }

  // ---- What a held floor is: an explicit packing ----

  /** A slot sits on a host its own tier may use, charged as that host charges the tier. */
  ghost predicate SlotIsPlaced(cfg: Config, nodes: seq<Node>, l: Lease)
  {
    exists t, n :: t in cfg.tiers && n in Placeable(nodes) && IsSlotOf(cfg, l, t, n)
  }

  predicate IsSlotOf(cfg: Config, l: Lease, t: Tier, n: Node)
  {
    && Eligible(cfg, n, t)
    && NodeCost(n, t).Some? && l == NewLease(t, n.name, NodeCost(n, t).value, 0)
  }

  lemma PlannedSlot(cfg: Config, nodes: seq<Node>, t: Tier, h: Host)
    requires ValidTier(t) && t in cfg.tiers && h in PlanFor(cfg, Placeable(nodes), t).cost
    ensures SlotIsPlaced(cfg, nodes, NewLease(t, h, PlanFor(cfg, Placeable(nodes), t).cost[h], 0))
  {
    hide Eligible, EligibleFrom, Placeable, CostMap, NodeCost;
    var rows := Placeable(nodes);
    var cost := PlanFor(cfg, rows, t).cost[h];
    var n :| n in EligibleFrom(cfg, rows, t) && n.name == h && NodeCost(n, t) == Some(cost);
    assert IsSlotOf(cfg, NewLease(t, h, cost, 0), t, n);
  }

  lemma HoldFloorPlaces(cfg: Config, db: Ledger, t: Tier, missing: nat, free: Free, limit: Size)
    requires ValidTier(t) && t in cfg.tiers
    ensures forall l :: l in HoldFloor(cfg, db, t, missing, free, limit).slots ==>
      SlotIsPlaced(cfg, db.nodes, l) && Charged(l) && Open(l) && l.tier == t.name
  {
    hide Draw, SlotIsPlaced, PlanFor, OrderFor, Placeable;
    var p := PlanFor(cfg, Placeable(db.nodes), t);
    var slots := HoldFloor(cfg, db, t, missing, free, limit).slots;
    forall l | l in slots
      ensures SlotIsPlaced(cfg, db.nodes, l) && Charged(l) && Open(l) && l.tier == t.name
    {
      var i :| 0 <= i < |slots| && slots[i] == l;
      PlannedSlot(cfg, db.nodes, t, l.target);
    }
  }

  /** A floor is held in full, or until nothing its tier may use has room for another. */
  lemma FloorHeldInFull(cfg: Config, db: Ledger, t: Tier, missing: nat, free: Free, limit: Size)
    requires ValidTier(t)
    ensures
      var rows := Placeable(db.nodes);
      var p, s := PlanFor(cfg, rows, t), OrderFor(cfg, rows, t);
      var room := Room(free, Max(limit.vcpu, 0), Max(limit.memory, 0));
      var slots := HoldFloor(cfg, db, t, missing, free, limit).slots;
      |slots| <= missing && (|slots| < missing ==> Best(p, Draw(p, s, room, missing).room, s).None?)
  {
    hide PlanFor, OrderFor, Placeable;
    var rows := Placeable(db.nodes);
    DrawInFull(PlanFor(cfg, rows, t), OrderFor(cfg, rows, t), Room(free, Max(limit.vcpu, 0), Max(limit.memory, 0)), missing);
  }

  lemma {:induction false} DrawInFull(p: Plan, s: seq<Host>, r: Room, n: nat)
    requires PositiveCosts(p)
    ensures |Draw(p, s, r, n).hosts| < n ==> Best(p, Draw(p, s, r, n).room, s).None?
    decreases n
  {
    hide Best, Spend;
    if n > 0 && Best(p, r, s).Some? {
      DrawInFull(p, s, Spend(p, r, Best(p, r, s).value), n - 1);
    }
  }

  lemma {:induction false} FloorsPlace(cfg: Config, db: Ledger, forTier: string, free: Free, returned: Size, k: nat)
    requires ValidConfig(cfg) && ValidNodes(db.nodes) && k <= |cfg.tiers|
    ensures forall l :: l in FloorsUpTo(cfg, db, forTier, free, returned, k).slots ==>
      SlotIsPlaced(cfg, db.nodes, l) && Charged(l) && Open(l) && l.tier != forTier
  {
    hide HoldFloor, SlotIsPlaced, Missing, FloorLimit;
    if k > 0 {
      var prev := FloorsUpTo(cfg, db, forTier, free, returned, k - 1);
      var t := cfg.tiers[k - 1];
      FloorsPlace(cfg, db, forTier, free, returned, k - 1);
      var missing := Missing(cfg, db, t);
      if t.name != forTier && t.reserved != 0 && missing > 0 {
        HoldFloorPlaces(cfg, db, t, missing, prev.free, FloorLimit(cfg, db, forTier, t, returned, prev.slots));
      }
    }
  }

  /** Holding floors moves each host's room by exactly what the slots charge it. */
  lemma {:induction false} FloorsTake(cfg: Config, db: Ledger, forTier: string, free: Free, returned: Size, k: nat, h: Host)
    requires ValidConfig(cfg) && ValidNodes(db.nodes) && k <= |cfg.tiers|
    ensures
      var f := FloorsUpTo(cfg, db, forTier, free, returned, k);
      TakenAt(free, f.free, f.slots, h)
  {
    hide TakenAt, Missing, FloorLimit, Draw, HoldFloor;
    if k == 0 {
      TakenNothing(free, h);
    } else {
      var prev := FloorsUpTo(cfg, db, forTier, free, returned, k - 1);
      var t := cfg.tiers[k - 1];
      FloorsTake(cfg, db, forTier, free, returned, k - 1, h);
      var missing := Missing(cfg, db, t);
      if t.name != forTier && t.reserved != 0 && missing > 0 {
        var limit := FloorLimit(cfg, db, forTier, t, returned, prev.slots);
        var one := HoldFloor(cfg, db, t, missing, prev.free, limit);
        HoldFloorTakes(cfg, db, t, missing, prev.free, limit, h);
        TakenThen(free, prev.free, one.free, prev.slots, one.slots, h);
      }
    }
  }

  lemma HoldFloorTakes(cfg: Config, db: Ledger, t: Tier, missing: nat, free: Free, limit: Size, h: Host)
    requires ValidNodes(db.nodes) && ValidTier(t)
    ensures
      var one := HoldFloor(cfg, db, t, missing, free, limit);
      && TakenAt(free, one.free, one.slots, h)
      && (forall l :: l in one.slots && l.target == h ==> SolventAt(one.free, h, l.macOSSlot))
  {
    hide TakenAt, Draw;
    var rows := Placeable(db.nodes);
    OrderIsSound(cfg, db.nodes, t);
    DrawAccounts(t, PlanFor(cfg, rows, t), OrderFor(cfg, rows, t),
                 Room(free, Max(limit.vcpu, 0), Max(limit.memory, 0)), missing, 0, h);
  }

  /** A host holding a slot is never taken below zero, by that floor or a later one. */
  lemma {:induction false} FloorsSolvent(cfg: Config, db: Ledger, forTier: string, free: Free, returned: Size, k: nat, h: Host)
    requires ValidConfig(cfg) && ValidNodes(db.nodes) && k <= |cfg.tiers|
    ensures
      var f := FloorsUpTo(cfg, db, forTier, free, returned, k);
      forall l :: l in f.slots && l.target == h ==> SolventAt(f.free, h, l.macOSSlot)
  {
    hide TakenAt, Missing, FloorLimit, Draw, HoldFloor;
    if k > 0 {
      var prev := FloorsUpTo(cfg, db, forTier, free, returned, k - 1);
      var t := cfg.tiers[k - 1];
      FloorsSolvent(cfg, db, forTier, free, returned, k - 1, h);
      var missing := Missing(cfg, db, t);
      if t.name != forTier && t.reserved != 0 && missing > 0 {
        var limit := FloorLimit(cfg, db, forTier, t, returned, prev.slots);
        var one := HoldFloor(cfg, db, t, missing, prev.free, limit);
        HoldFloorTakes(cfg, db, t, missing, prev.free, limit, h);
        HoldFloorPlaces(cfg, db, t, missing, prev.free, limit);
        HoldFloorLicence(cfg, db, t, missing, prev.free, limit);
        LaterStaysSolvent(prev.free, one.free, one.slots, h, t.guestOS == MacOS);
      }
    }
  }

  lemma HoldFloorLicence(cfg: Config, db: Ledger, t: Tier, missing: nat, free: Free, limit: Size)
    requires ValidTier(t)
    ensures forall l :: l in HoldFloor(cfg, db, t, missing, free, limit).slots ==>
      l.macOSSlot == (t.guestOS == MacOS) && Holder(l) == l.target
  {
  }

  lemma LaterStaysSolvent(before: Free, after: Free, slots: seq<Lease>, h: Host, macOS: bool)
    requires TakenAt(before, after, slots, h)
    requires forall l :: l in slots ==> l.macOSSlot == macOS && Holder(l) == l.target
    requires forall l :: l in slots && l.target == h ==> SolventAt(after, h, l.macOSSlot)
    ensures SolventAt(before, h, false) ==> SolventAt(after, h, false)
    ensures SolventAt(before, h, true) ==> SolventAt(after, h, true)
  {
    if forall l :: l in slots ==> l.target != h {
      UsedNone(slots, OnHost(h));
    } else if !macOS {
      NoLicences(slots, OnHost(h));
    }
  }

  lemma {:induction false} NoLicences(leases: seq<Lease>, q: Query)
    requires forall l :: l in leases ==> !l.macOSSlot
    ensures Used(leases, q).macOS == 0
  {
    if leases != [] {
      assert leases[|leases| - 1] in leases;
      NoLicences(leases[..|leases| - 1], q);
    }
  }
}

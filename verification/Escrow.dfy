/** Buying, as it runs: one transaction that measures, inserts, reads back and may roll back. */
module EscrowImpl {
  import opened Placement
  import opened Catalogue
  import opened LedgerState
  import opened Fleet
  import opened Floors
  import opened Purchases
  import opened PlacerImpl
  import opened Capacity

  /** Measures every placeable machine. */
  method FleetResources(cfg: Config, db: Ledger) returns (free: FreeRoom)
    ensures fresh(free) && free.Value() == FreeRows(cfg, Placeable(db.nodes), db.leases)
  {
    hide Used, MacOSLimit, Placeable, FreeRows;
    var rows := Placeable(db.nodes);
    FreeRowsNone(cfg, rows, db.leases);
    free := new FreeRoom(Free(map[], map[], map[]));
    for i := 0 to |rows|
      invariant fresh(free)
      invariant free.Value() == FreeRows(cfg, rows[..i], db.leases)
    {
      var n := rows[i];
      FreeRowsStep(cfg, rows, db.leases, i);
      var u := Used(db.leases, OnHost(n.name));
      free.vcpu := free.vcpu[n.name := n.vcpu - u.vcpu];
      free.memory := free.memory[n.name := n.memory - u.memory];
      free.macOS := free.macOS[n.name := MacOSLimit(cfg, n.name) - u.macOS];
    }
    assert rows[..|rows|] == rows;
  }

  lemma FreeRowsNone(cfg: Config, rows: seq<Node>, leases: seq<Lease>)
    ensures FreeRows(cfg, rows[..0], leases) == Free(map[], map[], map[])
  {
  }

  lemma FreeRowsStep(cfg: Config, rows: seq<Node>, leases: seq<Lease>, i: nat)
    requires i < |rows|
    ensures
      var f, n, u := FreeRows(cfg, rows[..i], leases), rows[i], Used(leases, OnHost(rows[i].name));
      FreeRows(cfg, rows[..i + 1], leases) ==
        Free(f.vcpu[n.name := n.vcpu - u.vcpu], f.memory[n.name := n.memory - u.memory],
             f.macOS[n.name := MacOSLimit(cfg, n.name) - u.macOS])
  {
    hide Used, MacOSLimit;
    assert rows[..i + 1][..i] == rows[..i];
  }

  /** A placer over the hosts one tier may use, spending the fleet's shared room. */
  method ForTier(cfg: Config, db: Ledger, t: Tier, free: FreeRoom) returns (p: Placer)
    requires ValidTier(t) && ValidNodes(db.nodes)
    ensures fresh(p) && p.Valid() && p.free == free
    ensures p.Plan() == PlanFor(cfg, Placeable(db.nodes), t) && p.order == OrderFor(cfg, Placeable(db.nodes), t)
    ensures p.Room() == Room(free.Value(), UNBOUNDED, UNBOUNDED)
  {
    var rows := Placeable(db.nodes);
    OrderIsSound(cfg, db.nodes, t);
    p := new Placer(OrderFor(cfg, rows, t), PlanFor(cfg, rows, t), free, UNBOUNDED, UNBOUNDED);
  }

  lemma {:induction false} DrawStuck(p: Plan, s: seq<Host>, r: Room, i: nat, n: nat)
    requires PositiveCosts(p) && i <= n && Best(p, Draw(p, s, r, i).room, s).None?
    ensures Draw(p, s, r, n) == Draw(p, s, r, i)
    decreases n - i
  {
    hide Draw, Best;
    DrawStep(p, s, r, i);
    if i < n {
      DrawStuck(p, s, r, i + 1, n);
    }
  }

  lemma UsedByOneMore(t: Tier, p: Plan, hosts: seq<Host>, h: Host, q: Query)
    requires (forall g :: g in hosts ==> g in p.cost) && h in p.cost
    ensures forall g :: g in hosts + [h] ==> g in p.cost
    ensures Used(NewLeases(t, p, hosts + [h], 0), q) ==
            Plus(Used(NewLeases(t, p, hosts, 0), q), ChargeOf(NewLease(t, h, p.cost[h], 0), q))
  {
    hide ChargeOf;
    var rows := NewLeases(t, p, hosts + [h], 0);
    assert rows[..|hosts|] == NewLeases(t, p, hosts, 0);
    assert (hosts + [h])[|hosts|] == h;
  }

  /** Takes one tier's outstanding reservation off the machines it could run on. */
  method HoldFloorOn(cfg: Config, db: Ledger, t: Tier, missing: nat, free: FreeRoom, limit: Size)
    returns (cost: Size)
    requires ValidTier(t) && ValidNodes(db.nodes)
    modifies free
    ensures
      var one := HoldFloor(cfg, db, t, missing, old(free.Value()), limit);
      && free.Value() == one.free
      && cost == Size(Used(one.slots, Everywhere).vcpu, Used(one.slots, Everywhere).memory)
  {
    hide Used, Draw, Best, PlanFor, OrderFor, Placement.Spend;
    var held := ForTier(cfg, db, t, free);
    held.deploymentVCPU, held.deploymentMemory := Max(limit.vcpu, 0), Max(limit.memory, 0);
    ghost var p, s, r := held.Plan(), held.order, held.Room();
    cost := Size(0, 0);
    assert Draw(p, s, r, 0) == Placed([], r) by { DrawZero(p, s, r); }
    UsedNone(NewLeases(t, p, [], 0), Everywhere);
    var i := 0;
    while i < missing
      invariant 0 <= i <= missing && held.Valid() && held.Plan() == p && held.order == s && held.free == free
      invariant held.Room() == Draw(p, s, r, i).room
      invariant cost == Size(Used(NewLeases(t, p, Draw(p, s, r, i).hosts, 0), Everywhere).vcpu,
                             Used(NewLeases(t, p, Draw(p, s, r, i).hosts, 0), Everywhere).memory)
    {
      DrawStep(p, s, r, i);
      var h, one, ok := held.Next();
      if !ok {
        DrawStuck(p, s, r, i, missing);
        break;
      }
      UsedByOneMore(t, p, Draw(p, s, r, i).hosts, h, Everywhere);
      cost := Size(cost.vcpu + one.vcpu, cost.memory + one.memory);
      i := i + 1;
    }
  }

  lemma DrawZero(p: Plan, s: seq<Host>, r: Room)
    requires PositiveCosts(p)
    ensures Draw(p, s, r, 0) == Placed([], r)
  {
  }

  /** What other tiers' outstanding floors hold: in all, and per target. */
  datatype FloorCharge = FloorCharge(vcpu: int, memory: int, byTarget: map<string, Size>)

  function SizeAt(m: map<string, Size>, target: string): Size
  {
    if target in m then m[target] else Size(0, 0)
  }

  ghost predicate ChargesFor(cfg: Config, slots: seq<Lease>, charge: FloorCharge)
  {
    && charge.vcpu == Used(slots, Everywhere).vcpu
    && charge.memory == Used(slots, Everywhere).memory
    && (forall target :: ChargedTo(cfg, slots, charge, target))
  }

  ghost predicate ChargedTo(cfg: Config, slots: seq<Lease>, charge: FloorCharge, target: string)
  {
    var u := Used(slots, InTiers(LabelsOf(cfg, target)));
    SizeAt(charge.byTarget, target) == Size(u.vcpu, u.memory)
  }

  lemma ChargesForMore(cfg: Config, t: Tier, slots: seq<Lease>, more: seq<Lease>, charge: FloorCharge)
    requires ValidConfig(cfg) && t in cfg.tiers && ChargesFor(cfg, slots, charge)
    requires forall l :: l in more ==> l.tier == t.name && Open(l)
    ensures
      var u := Used(more, Everywhere);
      var mine := SizeAt(charge.byTarget, t.target);
      ChargesFor(cfg, slots + more, FloorCharge(charge.vcpu + u.vcpu, charge.memory + u.memory,
        charge.byTarget[t.target := Size(mine.vcpu + u.vcpu, mine.memory + u.memory)]))
  {
    hide Used, LabelsOf;
    var u, mine := Used(more, Everywhere), SizeAt(charge.byTarget, t.target);
    var grown := FloorCharge(charge.vcpu + u.vcpu, charge.memory + u.memory,
                             charge.byTarget[t.target := Size(mine.vcpu + u.vcpu, mine.memory + u.memory)]);
    UsedConcat(slots, more, Everywhere);
    forall target ensures ChargedTo(cfg, slots + more, grown, target) {
      var q := InTiers(LabelsOf(cfg, target));
      UsedConcat(slots, more, q);
      LabelsExact(cfg, t, target);
      assert ChargedTo(cfg, slots, charge, target);
      if target == t.target {
        UsedSame(more, q, Everywhere);
      } else {
        UsedNone(more, q);
      }
    }
  }

  lemma {:induction false} NoFloors(cfg: Config, db: Ledger, forTier: string, free: Free, returned: Size, k: nat)
    requires ValidConfig(cfg) && k <= |cfg.tiers|
    requires forall t :: t in cfg.tiers ==> t.name == forTier || t.reserved == 0
    ensures FloorsUpTo(cfg, db, forTier, free, returned, k) == Held(free, [])
  {
    if k > 0 {
      assert cfg.tiers[k - 1] in cfg.tiers;
      NoFloors(cfg, db, forTier, free, returned, k - 1);
    }
  }

  /** Takes the room other tiers' floors still need off the machines, in label order. */
  method ReserveFloorsOn(cfg: Config, db: Ledger, forTier: string, free: FreeRoom, returned: Size)
    returns (held: FloorCharge)
    requires ValidConfig(cfg) && ValidNodes(db.nodes)
    modifies free
    ensures free.Value() == ReserveFloors(cfg, db, forTier, old(free.Value()), returned).free
    ensures ChargesFor(cfg, ReserveFloors(cfg, db, forTier, old(free.Value()), returned).slots, held)
  {
    hide Used, HoldFloor, Missing, ShareRoom, LabelsOf, CreditTo;
    held := FloorCharge(0, 0, map[]);
    forall target ensures ChargedTo(cfg, [], held, target) {
      UsedNone([], InTiers(LabelsOf(cfg, target)));
    }
    UsedNone([], Everywhere);
    if forall i :: 0 <= i < |cfg.tiers| ==> cfg.tiers[i].name == forTier || cfg.tiers[i].reserved == 0 {
      NoFloors(cfg, db, forTier, free.Value(), returned, |cfg.tiers|);
      return;
    }
    ghost var start := free.Value();
    for k := 0 to |cfg.tiers|
      invariant free.Value() == FloorsUpTo(cfg, db, forTier, start, returned, k).free
      invariant ChargesFor(cfg, FloorsUpTo(cfg, db, forTier, start, returned, k).slots, held)
    {
      var t := cfg.tiers[k];
      ghost var prev := FloorsUpTo(cfg, db, forTier, start, returned, k);
      var missing := Missing(cfg, db, t);
      if t.name != forTier && t.reserved != 0 && missing > 0 {
        var limit := Size(UNBOUNDED, UNBOUNDED);
        if t.target in cfg.shares {
          var room := ShareRoom(cfg, db.leases, t.target, CreditTo(cfg, forTier, t.target, returned));
          var mine := SizeAt(held.byTarget, t.target);
          limit := Size(room.vcpu - mine.vcpu, room.memory - mine.memory);
          assert ChargedTo(cfg, prev.slots, held, t.target);
        }
        assert limit == FloorLimit(cfg, db, forTier, t, returned, prev.slots);
        HoldFloorPlaces(cfg, db, t, missing, free.Value(), limit);
        ChargesForMore(cfg, t, prev.slots, HoldFloor(cfg, db, t, missing, free.Value(), limit).slots, held);
        var cost := HoldFloorOn(cfg, db, t, missing, free, limit);
        var sum := SizeAt(held.byTarget, t.target);
        held := FloorCharge(held.vcpu + cost.vcpu, held.memory + cost.memory,
                            held.byTarget[t.target := Size(sum.vcpu + cost.vcpu, sum.memory + cost.memory)]);
      }
    }
  }

  /** Headroom, handing back the placer it measured with. */
  method HeadroomWithPlacer(cfg: Config, db: Ledger, t: Tier) returns (n: nat, place: Placer)
    requires ValidConfig(cfg) && ValidTier(t) && ValidNodes(db.nodes)
    ensures n == Headroom(cfg, db, t)
    ensures fresh(place) && fresh(place.free) && place.Valid() && OfferOf(place) == OfferTo(cfg, db, t)
  {
    hide Used, FloorsUpTo, Placement.RoomFor, Best, Fill, FreeRows, Placeable, PlanFor, OrderFor, LabelsOf, ShareRoom;
    var free := FleetResources(cfg, db);
    var floors := ReserveFloorsOn(cfg, db, t.name, free, Size(0, 0));
    place := ForTier(cfg, db, t, free);
    var used := Used(db.leases, Everywhere);
    var share := ShareRoom(cfg, db.leases, t.target, Size(0, 0));
    if t.target in cfg.shares {
      assert ChargedTo(cfg, FloorsFor(cfg, db, t).slots, floors, t.target);
      var mine := SizeAt(floors.byTarget, t.target);
      share := Size(share.vcpu - mine.vcpu, share.memory - mine.memory);
    }
    place.deploymentVCPU := Min(Max(cfg.maxVCPU - used.vcpu - floors.vcpu, 0), Max(share.vcpu, 0));
    place.deploymentMemory := Min(Max(cfg.maxMemory - used.memory - floors.memory, 0), Max(share.memory, 0));
    n := place.CountByRank();
    if t.maxConcurrent > 0 {
      n := Max(Min(n, t.maxConcurrent - Used(db.leases, InTiers({t.name})).leases), 0);
    }
  }

  function OfferOf(p: Placer): Offer
    reads p, p.free
  {
    Offer(p.Plan(), p.order, p.Room())
  }

  // ---- Held hosts ----

  /** One held host left to its owner. */
  function KeepHost(cfg: Config, o: Offer, holds: Holds, h: Host): Offer
    requires h in holds
  {
    match TierNamed(cfg.tiers, holds[h])
    case None => o.(plan := o.plan.(cost := o.plan.cost - {h}))
    case Some(shape) =>
      var f := o.room.free;
      o.(room := o.room.(free := Free(f.vcpu[h := At(f.vcpu, h) - shape.vcpu],
                                      f.memory[h := At(f.memory, h) - shape.memory], f.macOS)))
  }

  method KeepHostOn(cfg: Config, place: Placer, holds: Holds, h: Host)
    requires place.Valid() && h in holds
    modifies place`cost, place.free
    ensures place.Valid() && OfferOf(place) == KeepHost(cfg, old(OfferOf(place)), holds, h)
  {
    hide TierNamed;
    match TierNamed(cfg.tiers, holds[h]) {
      case None =>
        place.cost := place.cost - {h};
      case Some(shape) =>
        place.free.vcpu := place.free.vcpu[h := At(place.free.vcpu, h) - shape.vcpu];
        place.free.memory := place.free.memory[h := At(place.free.memory, h) - shape.memory];
    }
  }

  /** Leaves each held host's room to its owner, whatever order the holds are visited in. */
  method KeepForOn(cfg: Config, place: Placer, holds: Holds)
    requires place.Valid()
    modifies place`cost, place.free
    ensures place.Valid() && OfferOf(place) == KeepFor(cfg, old(OfferOf(place)), holds)
  {
    hide KeepSome, KeepHost;
    ghost var start := OfferOf(place);
    var left := holds.Keys;
    KeepNone(cfg, start, holds);
    assert holds.Keys - left == {};
    while left != {}
      invariant left <= holds.Keys && place.Valid()
      invariant OfferOf(place) == KeepSome(cfg, start, holds, holds.Keys - left)
      decreases |left|
    {
      var host :| host in left;
      KeepOne(cfg, start, holds, holds.Keys - left, host);
      assert holds.Keys - (left - {host}) == (holds.Keys - left) + {host};
      left := left - {host};
      KeepHostOn(cfg, place, holds, host);
    }
    assert holds.Keys - left == holds.Keys;
  }

  lemma KeepNone(cfg: Config, o: Offer, holds: Holds)
    ensures KeepSome(cfg, o, holds, {}) == o
  {
    assert KeepRoom(o.room.free.vcpu, map[]) == o.room.free.vcpu;
    assert KeepRoom(o.room.free.memory, map[]) == o.room.free.memory;
    assert KeptVCPU(cfg, holds, {}) == map[] && KeptMemory(cfg, holds, {}) == map[];
    assert o.plan.cost - {} == o.plan.cost;
  }

  lemma KeepOne(cfg: Config, o: Offer, holds: Holds, hosts: set<Host>, h: Host)
    requires h in holds && h !in hosts
    ensures KeepSome(cfg, o, holds, hosts + {h}) == KeepHost(cfg, KeepSome(cfg, o, holds, hosts), holds, h)
  {
    hide TierNamed, NotOffered, KeptVCPU, KeptMemory, KeepRoom;
    KeptVCPUOne(cfg, holds, hosts, h);
    KeptMemoryOne(cfg, holds, hosts, h);
    NotOfferedOne(cfg, holds, hosts, h);
    match TierNamed(cfg.tiers, holds[h])
    case None =>
      assert o.plan.cost - (NotOffered(cfg, holds, hosts) + {h}) == (o.plan.cost - NotOffered(cfg, holds, hosts)) - {h};
    case Some(t) =>
      KeepRoomOne(o.room.free.vcpu, KeptVCPU(cfg, holds, hosts), h, t.vcpu);
      KeepRoomOne(o.room.free.memory, KeptMemory(cfg, holds, hosts), h, t.memory);
  }

  lemma NotOfferedOne(cfg: Config, holds: Holds, hosts: set<Host>, h: Host)
    requires h in holds
    ensures NotOffered(cfg, holds, hosts + {h}) ==
      if TierNamed(cfg.tiers, holds[h]).None? then NotOffered(cfg, holds, hosts) + {h} else NotOffered(cfg, holds, hosts)
  {
    hide TierNamed;
  }

  lemma KeptVCPUOne(cfg: Config, holds: Holds, hosts: set<Host>, h: Host)
    requires h in holds && h !in hosts
    ensures h !in KeptVCPU(cfg, holds, hosts)
    ensures KeptVCPU(cfg, holds, hosts + {h}) ==
      match TierNamed(cfg.tiers, holds[h])
      case None => KeptVCPU(cfg, holds, hosts)
      case Some(t) => KeptVCPU(cfg, holds, hosts)[h := t.vcpu]
  {
    hide TierNamed;
  }

  lemma KeptMemoryOne(cfg: Config, holds: Holds, hosts: set<Host>, h: Host)
    requires h in holds && h !in hosts
    ensures h !in KeptMemory(cfg, holds, hosts)
    ensures KeptMemory(cfg, holds, hosts + {h}) ==
      match TierNamed(cfg.tiers, holds[h])
      case None => KeptMemory(cfg, holds, hosts)
      case Some(t) => KeptMemory(cfg, holds, hosts)[h := t.memory]
  {
    hide TierNamed;
  }

  lemma KeepRoomOne(m: map<Host, int>, kept: map<Host, int>, h: Host, need: int)
    requires h !in kept
    ensures KeepRoom(m, kept[h := need]) == KeepRoom(m, kept)[h := At(KeepRoom(m, kept), h) - need]
  {
  }

  /** The placer a purchase uses, leaving held hosts what their owners need, and how many it may grant. */
  method PlacerAvoiding(cfg: Config, db: Ledger, t: Tier, place: Placer, holds: Holds, want: int)
    returns (chosen: Placer, limit: int, keeping: bool)
    requires place.Valid()
    ensures chosen.Valid() && (chosen == place || (fresh(chosen) && fresh(chosen.free)))
    ensures Terms(OfferOf(chosen), limit, keeping) == Avoiding(cfg, db, t, OfferOf(place), holds, want)
  {
    hide KeepFor, Fill, Missing;
    if |holds| == 0 {
      return place, want, false;
    }
    var open := place.Clone();
    KeepForOn(cfg, open, holds);
    var short := Missing(cfg, db, t);
    if short > 0 {
      var total := open.CountByRank();
      if total == 0 {
        return place, Min(want, short), false;
      }
    }
    return open, want, true;
  }

  /** How many of a tier an escrow in this transaction could grant now. */
  method RoomNow(cfg: Config, db: Ledger, t: Tier, holds: Holds) returns (room: nat)
    requires ValidConfig(cfg) && ValidTier(t) && ValidNodes(db.nodes)
    ensures room == RoomOf(cfg, db, t, holds)
  {
    hide Headroom, OfferTo, Avoiding, Fill;
    var place;
    room, place := HeadroomWithPlacer(cfg, db, t);
    if room > 0 && |holds| > 0 {
      var chosen, _, _ := PlacerAvoiding(cfg, db, t, place, holds, room);
      room := chosen.CountByRank();
    }
  }

  /** Whether every tier could be granted one lease by an escrow now. */
  method HaveRoom(cfg: Config, db: Ledger, tiers: seq<Tier>, care: Care) returns (all: bool)
    requires ValidConfig(cfg) && ValidNodes(db.nodes) && forall t :: t in tiers ==> ValidTier(t)
    ensures all == AllHaveRoom(cfg, db, tiers, care)
  {
    hide RoomOf;
    for i := 0 to |tiers|
      invariant forall j :: 0 <= j < i ==> RoomOf(cfg, db, tiers[j], HoldsAgainst(care, tiers[j].name)) >= 1
    {
      var room := RoomNow(cfg, db, tiers[i], HoldsAgainst(care, tiers[i].name));
      if room < 1 {
        assert tiers[i] in tiers;
        return false;
      }
    }
    return true;
  }

  /** The kept tiers that fit now. */
  method Fitting(cfg: Config, db: Ledger, tiers: seq<Tier>, care: Care) returns (fitting: seq<Tier>)
    requires ValidConfig(cfg) && ValidNodes(db.nodes) && forall t :: t in tiers ==> ValidTier(t)
    ensures forall t :: t in fitting <==> t in tiers && RoomOf(cfg, db, t, HoldsAgainst(care, t.name)) > 0
  {
    hide RoomOf;
    fitting := [];
    for i := 0 to |tiers|
      invariant forall t :: t in fitting <==> t in tiers[..i] && RoomOf(cfg, db, t, HoldsAgainst(care, t.name)) > 0
    {
      assert tiers[..i + 1] == tiers[..i] + [tiers[i]];
      var room := RoomNow(cfg, db, tiers[i], HoldsAgainst(care, tiers[i].name));
      if room > 0 {
        fitting := fitting + [tiers[i]];
      }
    }
    assert tiers[..|tiers|] == tiers;
  }

  /** The held hosts whose owner fits there now. */
  method OwnersNow(cfg: Config, db: Ledger, holds: Holds) returns (out: set<Host>)
    requires ValidConfig(cfg) && ValidNodes(db.nodes)
    ensures out == OwnersWithRoom(cfg, db, holds)
  {
    hide OfferTo, Headroom, Placement.RoomFor;
    out := {};
    var left := holds.Keys;
    while left != {}
      invariant left <= holds.Keys
      invariant out == set h | h in holds.Keys - left && OwnerFits(cfg, db, holds, h)
      decreases |left|
    {
      var host :| host in left;
      left := left - {host};
      match TierNamed(cfg.tiers, holds[host]) {
        case None =>
        case Some(owner) =>
          var _, place := HeadroomWithPlacer(cfg, db, owner);
          if Placement.RoomFor(place.Plan(), place.Room(), host) > 0 {
            out := out + {host};
          }
      }
    }
  }

  // ---- Buying ----

  /** Chooses the leases a purchase inserts: off the measured room, the held hosts avoided. */
  method Chosen(cfg: Config, db: Ledger, t: Tier, want: nat, care: Care, expiresAt: int)
    returns (rows: seq<Lease>, keeping: bool)
    requires ValidConfig(cfg) && ValidTier(t) && ValidNodes(db.nodes)
    ensures rows == RowsFor(cfg, db, t, want, care, expiresAt)
    ensures keeping == TermsFor(cfg, db, t, want, care).keeping
  {
    hide Headroom, OfferTo, Avoiding, Draw, NewLeases;
    var room, unheld := HeadroomWithPlacer(cfg, db, t);
    var place, limit;
    place, limit, keeping := PlacerAvoiding(cfg, db, t, unheld, HoldsAgainst(care, t.name), want);
    rows := Place(t, place, Max(Min(limit, room), 0), expiresAt);
  }

  /** When a lease reserved now lapses. */
  function Expiry(cfg: Config, now: int): int
  {
    now + cfg.leaseTTL
  }

  /** Buys up to `want` leases in one transaction, rolling back when a waiter would be left short. */
  method Escrow(cfg: Config, store: Store, t: Tier, want: nat, care: Care, now: int) returns (a: Attempt)
    requires ValidConfig(cfg) && ValidTier(t) && ValidCare(care) && ValidNodes(store.db.nodes)
    modifies store
    ensures a == Attempted(cfg, old(store.db), t, want, care, Expiry(cfg, now))
    ensures store.db == if a.Bought? then Inserted(old(store.db), a.rows) else old(store.db)
  {
    hide RowsFor, TermsFor, AllHaveRoom, LeavesWaiters, RoomOf, OwnersWithRoom;
    if want == 0 {
      assert store.db == Inserted(store.db, []);
      return Bought([]);
    }
    var tx := store.db;
    if tx.admission.sealed {
      return Sealed;
    }
    var roomNow := HaveRoom(cfg, tx, care.guarded, care);
    if !roomNow {
      return ShortNow;
    }
    var fitting := Fitting(cfg, tx, care.kept, care);
    var rows, keeping := Chosen(cfg, tx, t, want, care, Expiry(cfg, now));
    var fitted: set<Host> := {};
    if keeping {
      fitted := OwnersNow(cfg, tx, HoldsAgainst(care, t.name));
    }
    tx := Inserted(tx, rows);
    if rows != [] {
      var left := ReadBack(cfg, store.db, tx, t, fitting, fitted, care, keeping);
      if !left {
        return LeftShort;
      }
    }
    store.db := tx;
    return Bought(rows);
  }

  /** Reads the ledger back with the leases in it, floors held again and all. */
  method ReadBack(cfg: Config, ghost before: Ledger, tx: Ledger, t: Tier, fitting: seq<Tier>, fitted: set<Host>,
                  care: Care, keeping: bool)
    returns (left: bool)
    requires ValidConfig(cfg) && ValidCare(care) && ValidNodes(tx.nodes)
    requires forall u :: u in fitting <==> u in care.kept && RoomOf(cfg, before, u, HoldsAgainst(care, u.name)) > 0
    requires keeping ==> fitted == OwnersWithRoom(cfg, before, HoldsAgainst(care, t.name))
    ensures left == LeavesWaiters(cfg, before, tx, t, care, keeping)
  {
    hide RoomOf, OwnersWithRoom;
    var guardedLeft := HaveRoom(cfg, tx, care.guarded, care);
    var fittingLeft := HaveRoom(cfg, tx, fitting, care);
    if !guardedLeft || !fittingLeft {
      return false;
    }
    if keeping {
      var after := OwnersNow(cfg, tx, HoldsAgainst(care, t.name));
      return fitted <= after;
    }
    return true;
  }

  /** Chooses a machine for each of up to `take` leases, spending as it goes. */
  method Place(t: Tier, place: Placer, take: nat, expiresAt: int) returns (rows: seq<Lease>)
    requires place.Valid()
    modifies place`deploymentVCPU, place`deploymentMemory, place.free
    ensures rows == NewLeases(t, place.Plan(), Draw(place.Plan(), place.order, old(place.Room()), take).hosts, expiresAt)
  {
    hide Draw, Best, Placement.Spend, Placement.RoomFor;
    ghost var p, s, r := place.Plan(), place.order, place.Room();
    rows := [];
    DrawZero(p, s, r);
    var i := 0;
    while i < take
      invariant 0 <= i <= take && place.Valid() && place.Plan() == p && place.order == s
      invariant place.Room() == Draw(p, s, r, i).room
      invariant rows == NewLeases(t, p, Draw(p, s, r, i).hosts, expiresAt)
    {
      DrawStep(p, s, r, i);
      var target, cost, ok := place.Next();
      if !ok {
        DrawStuck(p, s, r, i, take);
        break;
      }
      rows := rows + [NewLease(t, target, cost, expiresAt)];
      i := i + 1;
    }
  }

  /** What a purchase must leave alone, by tier name. */
  datatype Purchase = Purchase(protect: seq<string>, keep: seq<string>, avoid: map<string, Holds>)

  /** The tiers of a list the catalogue knows, the buyer's own left out. */
  function Resolved(cfg: Config, names: seq<string>, buyer: string): (tiers: seq<Tier>)
    ensures forall t :: t in tiers <==> t in cfg.tiers && t.name in names && t.name != buyer &&
                                        TierNamed(cfg.tiers, t.name) == Some(t)
  {
    if names == [] then []
    else
      var last := names[|names| - 1];
      assert names == names[..|names| - 1] + [last];
      var found := TierNamed(cfg.tiers, last);
      Resolved(cfg, names[..|names| - 1], buyer) +
      if found.Some? && last != buyer then [found.value] else []
  }

  function CareOf(cfg: Config, purchase: Purchase, buyer: string): Care
  {
    Care(Resolved(cfg, purchase.protect, buyer), Resolved(cfg, purchase.keep, buyer), purchase.avoid)
  }

  lemma CareIsValid(cfg: Config, purchase: Purchase, buyer: string)
    requires ValidConfig(cfg)
    ensures ValidCare(CareOf(cfg, purchase, buyer))
  {
  }

  /** What one attempt to buy leaves. */
  ghost function Purchased(cfg: Config, db: Ledger, tier: string, want: nat, purchase: Purchase, now: int): Ledger
    requires ValidConfig(cfg)
  {
    CareIsValid(cfg, purchase, tier);
    match TierNamed(cfg.tiers, tier)
    case None => db
    case Some(t) =>
      match Attempted(cfg, db, t, want, CareOf(cfg, purchase, tier), Expiry(cfg, now))
      case Bought(rows) => Inserted(db, rows)
      case _ => db
  }

  datatype Grant = Refused(why: Answer) | Granted(rows: seq<Lease>)

  /** An attempt this large is rolled back for a waiter's sake. */
  ghost predicate RolledBack(cfg: Config, db: Ledger, t: Tier, k: nat, care: Care, expiresAt: int)
    requires ValidConfig(cfg) && ValidTier(t) && ValidCare(care)
  {
    Attempted(cfg, db, t, k, care, expiresAt).LeftShort?
  }

  /** The hosts held against a tier, by the caller's own account. */
  function HoldsOn(purchase: Purchase, name: string): Holds
  {
    if name in purchase.avoid then purchase.avoid[name] else map[]
  }

  /** Every held host whose owner fitted there still holds its owner. */
  ghost predicate KeepsOwners(cfg: Config, before: Ledger, after: Ledger, holds: Holds)
    requires ValidConfig(cfg)
  {
    forall h :: h in holds && OwnerFits(cfg, before, holds, h) ==> OwnerFits(cfg, after, holds, h)
  }

  /** The one excuse for taking a held host's room: the tier is below its own floor, has room nowhere else, and takes
      no more than its floor lacks. */
  ghost predicate MayUseHeldHosts(cfg: Config, db: Ledger, t: Tier, holds: Holds, taken: nat)
    requires ValidConfig(cfg) && ValidTier(t)
  {
    0 < taken <= Missing(cfg, db, t) && Total(KeepFor(cfg, OfferTo(cfg, db, t), holds)) == 0
  }

  /** Who a purchase must leave alone is who the caller named, the buyer apart. */
  lemma CareMeans(cfg: Config, purchase: Purchase, buyer: string, w: Tier)
    requires ValidConfig(cfg) && w in cfg.tiers
    ensures w in CareOf(cfg, purchase, buyer).guarded <==> w.name in purchase.protect && w.name != buyer
    ensures w in CareOf(cfg, purchase, buyer).kept <==> w.name in purchase.keep && w.name != buyer
    ensures HoldsAgainst(CareOf(cfg, purchase, buyer), w.name) == HoldsOn(purchase, w.name)
  {
    TierNamedUnique(cfg, w);
  }

  /** What a purchase must leave whom the caller named: every protected tier one lease, so nothing is bought while one
      is short; every kept tier that fitted its fit; and every held host its owner's fit, but for the one excuse. */
  ghost predicate WaitersKept(cfg: Config, before: Ledger, after: Ledger, t: Tier, purchase: Purchase, rows: seq<Lease>)
    requires ValidConfig(cfg) && ValidTier(t)
  {
    && (forall w :: w in cfg.tiers && w.name in purchase.protect && w.name != t.name ==>
          && (RoomOf(cfg, before, w, HoldsOn(purchase, w.name)) < 1 ==> rows == [])
          && (rows != [] ==> RoomOf(cfg, after, w, HoldsOn(purchase, w.name)) >= 1))
    && (rows != [] ==> forall w :: w in cfg.tiers && w.name in purchase.keep && w.name != t.name ==>
          RoomOf(cfg, before, w, HoldsOn(purchase, w.name)) >= 1 ==> RoomOf(cfg, after, w, HoldsOn(purchase, w.name)) >= 1)
    && (rows != [] && |HoldsOn(purchase, t.name)| > 0 ==>
          || KeepsOwners(cfg, before, after, HoldsOn(purchase, t.name))
          || MayUseHeldHosts(cfg, before, t, HoldsOn(purchase, t.name), |rows|))
  }

  lemma NothingBought(cfg: Config, before: Ledger, after: Ledger, t: Tier, purchase: Purchase)
    requires ValidConfig(cfg) && ValidTier(t)
    ensures WaitersKept(cfg, before, after, t, purchase, [])
  {
    hide RoomOf, KeepsOwners, MayUseHeldHosts;
  }

  /** What a grant that leaves its waiters alone leaves by name. */
  lemma GrantLeavesNamed(cfg: Config, before: Ledger, after: Ledger, t: Tier, purchase: Purchase, taken: nat, rows: seq<Lease>, expiresAt: int)
    requires ValidConfig(cfg) && TierNamed(cfg.tiers, t.name) == Some(t) && ValidTier(t) && ValidCare(CareOf(cfg, purchase, t.name))
    requires rows == RowsFor(cfg, before, t, taken, CareOf(cfg, purchase, t.name), expiresAt) && rows != []
    requires LeavesWaiters(cfg, before, after, t, CareOf(cfg, purchase, t.name), TermsFor(cfg, before, t, taken, CareOf(cfg, purchase, t.name)).keeping)
    requires AllHaveRoom(cfg, before, CareOf(cfg, purchase, t.name).guarded, CareOf(cfg, purchase, t.name))
    ensures WaitersKept(cfg, before, after, t, purchase, rows)
  {
    hide RoomOf, RowsFor, TermsFor, CareOf, OwnerFits, Missing, HoldsAgainst, HoldsOn, KeepFor, Total, OfferTo;
    var care := CareOf(cfg, purchase, t.name);
    forall w | w in cfg.tiers
      ensures w in care.guarded <==> w.name in purchase.protect && w.name != t.name
      ensures w in care.kept <==> w.name in purchase.keep && w.name != t.name
      ensures HoldsAgainst(care, w.name) == HoldsOn(purchase, w.name)
    {
      CareMeans(cfg, purchase, t.name, w);
    }
    assert t in cfg.tiers;
    if |HoldsOn(purchase, t.name)| > 0 {
      if TermsFor(cfg, before, t, taken, care).keeping {
        OwnersStay(cfg, before, after, HoldsOn(purchase, t.name));
      } else {
        HeldHostsExcuse(cfg, before, t, taken, care, expiresAt);
      }
    }
  }

  lemma OwnersStay(cfg: Config, before: Ledger, after: Ledger, holds: Holds)
    requires ValidConfig(cfg) && OwnersWithRoom(cfg, before, holds) <= OwnersWithRoom(cfg, after, holds)
    ensures KeepsOwners(cfg, before, after, holds)
  {
    hide OwnerFits;
    forall h | h in holds && OwnerFits(cfg, before, holds, h) ensures OwnerFits(cfg, after, holds, h) {
      assert h in OwnersWithRoom(cfg, before, holds);
    }
  }

  lemma HeldHostsExcuse(cfg: Config, db: Ledger, t: Tier, taken: nat, care: Care, expiresAt: int)
    requires ValidConfig(cfg) && ValidTier(t) && |HoldsAgainst(care, t.name)| > 0 && !TermsFor(cfg, db, t, taken, care).keeping
    requires RowsFor(cfg, db, t, taken, care, expiresAt) != []
    ensures MayUseHeldHosts(cfg, db, t, HoldsAgainst(care, t.name), |RowsFor(cfg, db, t, taken, care, expiresAt)|)
  {
    hide KeepFor, Total, OfferTo, Missing, Draw, Headroom, HoldsAgainst;
  }

  /** Buys as many as leave every waiter its lease, trying fewer one transaction at a time.
      `taken` is the attempt that decided: every larger one was rolled back for a waiter's sake. */
  method EscrowFor(cfg: Config, store: Store, tier: string, want: int, purchase: Purchase, now: int)
    returns (g: Grant, ghost taken: nat)
    requires ValidConfig(cfg) && ValidNodes(store.db.nodes)
    modifies store
    ensures g.Refused? ==> store.db == old(store.db)
    ensures g.Refused? <==> want < 0 || TierNamed(cfg.tiers, tier).None? || (want > 0 && old(store.db).admission.sealed)
    ensures g.Granted? ==> store.db == Inserted(old(store.db), g.rows)
    ensures g.Granted? ==> store.db == Purchased(cfg, old(store.db), tier, taken, purchase, now)
    ensures g.Granted? ==>
      var t := TierNamed(cfg.tiers, tier).value;
      var care := CareOf(cfg, purchase, tier);
      && ValidTier(t) && ValidCare(care)
      && taken <= want
      && (forall k :: taken < k <= want ==> RolledBack(cfg, old(store.db), t, k, care, Expiry(cfg, now)))
      && (g.rows != [] ==>
            && g.rows == RowsFor(cfg, old(store.db), t, taken, care, Expiry(cfg, now))
            && LeavesWaiters(cfg, old(store.db), store.db, t, care, TermsFor(cfg, old(store.db), t, taken, care).keeping))
      && (!AllHaveRoom(cfg, old(store.db), care.guarded, care) ==> g.rows == [])
    ensures g.Granted? ==> WaitersKept(cfg, old(store.db), store.db, TierNamed(cfg.tiers, tier).value, purchase, g.rows)
  {
    hide RowsFor, AllHaveRoom, LeavesWaiters, TermsFor, WaitersKept, CareOf;
    taken := 0;
    if want < 0 {
      return Refused(Invalid), 0;
    }
    var found := TierNamed(cfg.tiers, tier);
    if found.None? {
      return Refused(UnknownTier), 0;
    }
    var t, care := found.value, CareOf(cfg, purchase, tier);
    CareIsValid(cfg, purchase, tier);
    ghost var db := store.db;
    NothingBought(cfg, db, db, t, purchase);
    assert store.db == Inserted(store.db, []);
    var take: nat := want;
    while take > 0
      invariant take <= want && store.db == db
      invariant forall k :: take < k <= want ==> RolledBack(cfg, db, t, k, care, Expiry(cfg, now))
    {
      var a := Escrow(cfg, store, t, take, care, now);
      match a {
        case LeftShort =>
          take := take - 1;
        case ShortNow =>
          return Granted([]), take;
        case Sealed =>
          return Refused(AdmissionSealed), take;
        case Bought(rows) =>
          if rows != [] {
            GrantLeavesNamed(cfg, db, store.db, t, purchase, take, rows, Expiry(cfg, now));
          }
          return Granted(rows), take;
      }
    }
    if want > 0 {
      assert RolledBack(cfg, db, t, want, care, Expiry(cfg, now));
    }
    return Granted([]), 0;
  }

  /** Escrows one lease: it succeeds exactly when headroom is at least one. */
  method Reserve(cfg: Config, store: Store, tier: string, now: int) returns (answer: Answer)
    requires ValidConfig(cfg) && ValidNodes(store.db.nodes)
    modifies store
    ensures answer == OK <==>
      && TierNamed(cfg.tiers, tier).Some? && !old(store.db).admission.sealed
      && Headroom(cfg, old(store.db), TierNamed(cfg.tiers, tier).value) >= 1
    ensures answer != OK ==> store.db == old(store.db)
    ensures answer == OK ==> store.db == Purchased(cfg, old(store.db), tier, 1, Purchase([], [], map[]), now)
    ensures answer == OK ==>
      var t := TierNamed(cfg.tiers, tier).value;
      var o := OfferTo(cfg, old(store.db), t);
      && Best(o.plan, o.room, o.order).Some?
      && store.db == Inserted(old(store.db),
           [NewLease(t, Best(o.plan, o.room, o.order).value, o.plan.cost[Best(o.plan, o.room, o.order).value], Expiry(cfg, now))])
  {
    hide Headroom, OfferTo, NewLease, Best, Purchased, TierNamed;
    var found := TierNamed(cfg.tiers, tier);
    if found.None? {
      return UnknownTier;
    }
    if store.db.admission.sealed {
      return AdmissionSealed;
    }
    var ok, row := OneSlot(cfg, store.db, found.value, Expiry(cfg, now));
    if !ok {
      return NoCapacity;
    }
    ReserveIsOnePurchase(cfg, store.db, found.value, now);
    store.db := Inserted(store.db, [row]);
    return OK;
  }

  /** The lease one escrowed slot would be, on the preferred host, where there is headroom for it. */
  method OneSlot(cfg: Config, db: Ledger, t: Tier, expiresAt: int) returns (ok: bool, row: Lease)
    requires ValidConfig(cfg) && ValidTier(t) && ValidNodes(db.nodes)
    ensures ok == (Headroom(cfg, db, t) >= 1)
    ensures ok ==>
      var o := OfferTo(cfg, db, t);
      && Best(o.plan, o.room, o.order).Some?
      && row == NewLease(t, Best(o.plan, o.room, o.order).value, o.plan.cost[Best(o.plan, o.room, o.order).value], expiresAt)
  {
    hide Headroom, OfferTo, NewLease, Best, Placement.Spend, Total;
    var room, place := HeadroomWithPlacer(cfg, db, t);
    row := NewLease(t, "", Cost(0, 0, ""), expiresAt);
    if room < 1 {
      return false, row;
    }
    ghost var o := OfferOf(place);
    HeadroomWithinTotal(cfg, db, t);
    TotalMeansBest(o);
    var target, cost;
    target, cost, ok := place.Next();
    if ok {
      row := NewLease(t, target, cost, expiresAt);
    }
  }

  /** Reserving is buying one with nothing to protect. */
  lemma ReserveIsOnePurchase(cfg: Config, db: Ledger, t: Tier, now: int)
    requires ValidConfig(cfg) && TierNamed(cfg.tiers, t.name) == Some(t) && ValidTier(t) && !db.admission.sealed && Headroom(cfg, db, t) >= 1
    requires Best(OfferTo(cfg, db, t).plan, OfferTo(cfg, db, t).room, OfferTo(cfg, db, t).order).Some?
    ensures
      var o := OfferTo(cfg, db, t);
      var h := Best(o.plan, o.room, o.order).value;
      Purchased(cfg, db, t.name, 1, Purchase([], [], map[]), now) == Inserted(db, [NewLease(t, h, o.plan.cost[h], Expiry(cfg, now))])
  {
    hide Headroom, OfferTo, NewLease, Best, RowsFor, Attempted, TierNamed, CareOf;
    NoCare(cfg, t.name);
    AttemptUnprotected(cfg, db, t, 1, Expiry(cfg, now));
    OneRow(cfg, db, t, Expiry(cfg, now));
  }

  lemma NoCare(cfg: Config, buyer: string)
    ensures CareOf(cfg, Purchase([], [], map[]), buyer) == Care([], [], map[])
  {
  }

  lemma AttemptUnprotected(cfg: Config, db: Ledger, t: Tier, want: nat, expiresAt: int)
    requires ValidConfig(cfg) && ValidTier(t) && !db.admission.sealed && want > 0
    ensures Attempted(cfg, db, t, want, Care([], [], map[]), expiresAt) ==
      Bought(RowsFor(cfg, db, t, want, Care([], [], map[]), expiresAt))
  {
    hide RowsFor, TermsFor, OwnersWithRoom, RoomOf;
    NothingHeld(cfg, db, t, want);
  }

  lemma NothingHeld(cfg: Config, db: Ledger, t: Tier, want: int)
    requires ValidConfig(cfg) && ValidTier(t)
    ensures TermsFor(cfg, db, t, want, Care([], [], map[])) == Terms(OfferTo(cfg, db, t), want, false)
  {
    hide OfferTo;
  }

  lemma OneRow(cfg: Config, db: Ledger, t: Tier, expiresAt: int)
    requires ValidConfig(cfg) && ValidTier(t) && Headroom(cfg, db, t) >= 1
    requires Best(OfferTo(cfg, db, t).plan, OfferTo(cfg, db, t).room, OfferTo(cfg, db, t).order).Some?
    ensures
      var o := OfferTo(cfg, db, t);
      var h := Best(o.plan, o.room, o.order).value;
      RowsFor(cfg, db, t, 1, Care([], [], map[]), expiresAt) == [NewLease(t, h, o.plan.cost[h], expiresAt)]
  {
    hide Headroom, OfferTo, NewLease, Best, TermsFor, Draw;
    var o := OfferTo(cfg, db, t);
    NothingHeld(cfg, db, t, 1);
    DrawOne(o.plan, o.order, o.room);
  }

  /** With nothing to protect no attempt is rolled back, so an escrow on an open deployment decides at once and
      grants exactly the lesser of what is wanted and headroom. */
  lemma UnprotectedEscrowGrantsHeadroom(cfg: Config, db: Ledger, t: Tier, want: nat, now: int)
    requires ValidConfig(cfg) && TierNamed(cfg.tiers, t.name) == Some(t) && ValidTier(t) && !db.admission.sealed
    ensures !RolledBack(cfg, db, t, want, Care([], [], map[]), Expiry(cfg, now))
    ensures |Purchased(cfg, db, t.name, want, Purchase([], [], map[]), now).leases| == |db.leases| + Min(want, Headroom(cfg, db, t))
  {
    hide Headroom, RowsFor, Attempted, TierNamed, CareOf;
    NoCare(cfg, t.name);
    AttemptGrantsHeadroom(cfg, db, t, want, Expiry(cfg, now));
  }

  lemma DrawOne(p: Plan, s: seq<Host>, r: Room)
    requires PositiveCosts(p) && Best(p, r, s).Some?
    ensures Draw(p, s, r, 1).hosts == [Best(p, r, s).value]
  {
    hide Best;
    assert Draw(p, s, Spend(p, r, Best(p, r, s).value), 0).hosts == [];
  }

  lemma TotalMeansBest(o: Offer)
    requires PositiveCosts(o.plan) && Total(o) >= 1
    ensures Best(o.plan, o.room, o.order).Some?
  {
  }
}

/**
 Authorising a fallback shape: a purchase of the difference, judged as if the
 lease's current shape had first been handed back.
 */
module Resizing {
  import opened Placement
  import opened Catalogue
  import opened LedgerState
  import opened Fleet
  import opened Floors
  import opened Purchases
  import opened Capacity
  import opened EscrowImpl

  datatype Change = Change(answer: Answer, db: Ledger)

  /** What a lease is charged now. */
  function Footprint(l: Lease): Size { Size(l.vcpu, l.memory) }

  /** The fleet with the lease's shape handed back to its host. */
  function HandedBack(free: Free, l: Lease): Free
  {
    Free(free.vcpu[l.node := At(free.vcpu, l.node) + l.vcpu],
         free.memory[l.node := At(free.memory, l.node) + l.memory], free.macOS)
  }

  /** The other tiers' floors, held once the lease's shape is handed back. */
  function FloorsBeside(cfg: Config, db: Ledger, l: Lease): Held
    requires ValidConfig(cfg)
  {
    ReserveFloors(cfg, db, l.tier, HandedBack(FreeRows(cfg, Placeable(db.nodes), db.leases), l), Footprint(l))
  }

  /** What a share leaves a lease's new shape. */
  function ShareBeside(cfg: Config, db: Ledger, l: Lease, target: string): Size
    requires ValidConfig(cfg)
  {
    ShareAfter(cfg, db.leases, target, Footprint(l), FloorsBeside(cfg, db, l).slots)
  }

  predicate NoLarger(a: Size, b: Size) { a.vcpu <= b.vcpu && a.memory <= b.memory }

  /** A known tier answers to its own target's share; one that left the catalogue to every share. */
  predicate ShareHolds(cfg: Config, db: Ledger, l: Lease, shape: Size)
    requires ValidConfig(cfg)
  {
    && NoLarger(shape, Size(UNBOUNDED, UNBOUNDED))
    && forall target :: target in cfg.shares && AnswersTo(cfg, l, target) ==> NoLarger(shape, ShareBeside(cfg, db, l, target))
  }

  predicate AnswersTo(cfg: Config, l: Lease, target: string)
  {
    match TierNamed(cfg.tiers, l.tier)
    case Some(t) => t.target == target
    case None => true
  }

  /** The new shape fits its host beside every floor, the deployment, the share and the host's own size. */
  predicate ShapeFits(cfg: Config, db: Ledger, l: Lease, n: Node, shape: Size)
    requires ValidConfig(cfg)
  {
    var held := FloorsBeside(cfg, db, l);
    var used, floors := Used(db.leases, Everywhere), Used(held.slots, Everywhere);
    && NoLarger(shape, Size(At(held.free.vcpu, l.node), At(held.free.memory, l.node)))
    && shape.vcpu <= cfg.maxVCPU - (used.vcpu - l.vcpu) - floors.vcpu
    && shape.memory <= cfg.maxMemory - (used.memory - l.memory) - floors.memory
    && ShareHolds(cfg, db, l, shape)
    && NoLarger(shape, Size(n.vcpu, n.memory))
  }

  /** The first declared shape of this name and size. */
  function Declared(shapes: seq<Shape>, kind: string, size: Size): (s: Option<Shape>)
    ensures s.Some? ==> s.value in shapes && s.value.kind == kind && Size(s.value.vcpu, s.value.memory) == size
    ensures s.None? ==> forall x :: x in shapes ==> x.kind != kind || Size(x.vcpu, x.memory) != size
  {
    if shapes == [] then None
    else if shapes[0].kind == kind && Size(shapes[0].vcpu, shapes[0].memory) == size then Some(shapes[0])
    else Declared(shapes[1..], kind, size)
  }

  /** Whether an EC2 shape's architecture is one the lease's tier is known to run on. */
  predicate RightArchitecture(cfg: Config, l: Lease, arch: string)
  {
    l.provider == Some(EC2) ==>
      match TierNamed(cfg.tiers, l.tier)
      case None => !cfg.namesArch
      case Some(t) => t.arch == "" || arch == t.arch
  }

  /** Why a shape change is refused before any capacity is looked at. */
  function ResizeRefusal(cfg: Config, db: Ledger, l: Lease, kind: string, size: Size): Answer
  {
    if l.phase != Launching then BadTransition
    else if l.provider.None? || l.provider.value.RunsOnHost() || l.node == "" then WrongProvider
    else
      match NodeNamed(db.nodes, l.node)
      case None => Invalid
      case Some(n) =>
        match Declared(n.shapes, kind, size)
        case None => NotPlaceable
        case Some(s) =>
          if size.vcpu < l.requestedVCPU || size.memory < l.requestedMemory then NotPlaceable
          else if l.instanceType == kind && Footprint(l) == size then OK
          else if !RightArchitecture(cfg, l, s.arch) then NoCapacity
          else OK
  }

  function WithShape(l: Lease, kind: string, size: Size): Lease
  {
    l.(vcpu := size.vcpu, memory := size.memory, instanceType := kind)
  }

  /** The tiers a growth must leave a lease for; a shape no larger takes nothing. */
  function Judged(cfg: Config, l: Lease, size: Size, protect: seq<string>): seq<Tier>
  {
    if size.vcpu > l.vcpu || size.memory > l.memory then Resolved(cfg, protect, l.tier) else []
  }

  /** Changing a lease's shape: what it answers and the ledger it leaves. */
  ghost function Resized(cfg: Config, db: Ledger, id: nat, epoch: int, kind: string, size: Size, protect: seq<string>): (c: Change)
    requires ValidConfig(cfg)
    ensures c.answer != OK ==> c.db == db
  {
    var found := Load(db, id, epoch);
    if found != OK then Change(found, db)
    else
      var l := db.leases[id];
      var refusal := ResizeRefusal(cfg, db, l, kind, size);
      if refusal != OK || (l.instanceType == kind && Footprint(l) == size) then Change(refusal, db)
      else if !ShapeFits(cfg, db, l, NodeNamed(db.nodes, l.node).value, size) then Change(NoCapacity, db)
      else
        var after := db.(leases := db.leases[id := WithShape(l, kind, size)]);
        var judged := Judged(cfg, l, size, protect);
        if AllHaveRoom(cfg, after, judged, Care(judged, [], map[])) then Change(OK, after) else Change(NoCapacity, db)
  }

  // ---- A resize oversells nothing ----

  /** One row's charge replaced moves a sum by the difference, and only where the row counts. */
  lemma ReshapedSum(leases: seq<Lease>, id: nat, kind: string, size: Size, q: Query)
    requires id < |leases| && Open(leases[id])
    ensures
      var l := leases[id];
      var was, now := Used(leases, q), Used(leases[id := WithShape(l, kind, size)], q);
      && now.macOS == was.macOS && now.leases == was.leases
      && now.vcpu == was.vcpu + (if Matches(l, q) then size.vcpu - l.vcpu else 0)
      && now.memory == was.memory + (if Matches(l, q) then size.memory - l.memory else 0)
  {
    hide Used;
    UsedUpdate(leases, id, WithShape(leases[id], kind, size), q);
  }

  lemma SlotsBesideCharged(cfg: Config, db: Ledger, l: Lease)
    requires ValidConfig(cfg) && ValidNodes(db.nodes)
    ensures AllCharged(FloorsBeside(cfg, db, l).slots)
  {
    FloorsPlace(cfg, db, l.tier, HandedBack(FreeRows(cfg, Placeable(db.nodes), db.leases), l), Footprint(l), |cfg.tiers|);
  }

  /** Beside the floors, a host offers the handed-back lease its own size less every other charge;
      a host out of contact offers what it handed back and no more. */
  lemma RoomBeside(cfg: Config, db: Ledger, l: Lease, n: Node)
    requires ValidConfig(cfg) && ValidNodes(db.nodes) && n in db.nodes && n.name == l.node
    ensures
      var held, u := FloorsBeside(cfg, db, l), Used(db.leases, OnHost(n.name));
      || (At(held.free.vcpu, n.name) <= n.vcpu - u.vcpu + l.vcpu && At(held.free.memory, n.name) <= n.memory - u.memory + l.memory)
      || (At(held.free.vcpu, n.name) <= l.vcpu && At(held.free.memory, n.name) <= l.memory)
  {
    hide Used, FloorsUpTo, FreeRows, Placeable;
    var rows := Placeable(db.nodes);
    var free := FreeRows(cfg, rows, db.leases);
    SlotsBesideCharged(cfg, db, l);
    UsedNonNegative(FloorsBeside(cfg, db, l).slots, OnHost(n.name));
    FloorsTake(cfg, db, l.tier, HandedBack(free, l), Footprint(l), |cfg.tiers|, n.name);
    HostOf(db.nodes, n);
    if n in rows {
      PlaceableDistinct(db.nodes);
      FreeAt(cfg, rows, db.leases, n);
    } else {
      FreeElsewhere(cfg, rows, db.leases, n.name);
    }
  }

  lemma ReshapedFitsHost(cfg: Config, db: Ledger, id: nat, kind: string, size: Size, n: Node)
    requires ValidConfig(cfg) && ValidNodes(db.nodes) && id < |db.leases| && Open(db.leases[id])
    requires db.leases[id].node != "" && NodeNamed(db.nodes, db.leases[id].node).Some?
    requires ShapeFits(cfg, db, db.leases[id], NodeNamed(db.nodes, db.leases[id].node).value, size)
    requires n in db.nodes && FitsHost(cfg, n, db.leases)
    ensures FitsHost(cfg, n, db.leases[id := WithShape(db.leases[id], kind, size)])
  {
    hide Used, FloorsBeside, ShareHolds, MacOSLimit, NodeNamed;
    ReshapedSum(db.leases, id, kind, size, OnHost(n.name));
    if n.name == db.leases[id].node {
      RoomBeside(cfg, db, db.leases[id], n);
    }
  }

  lemma ReshapedFitsShare(cfg: Config, db: Ledger, id: nat, kind: string, size: Size, target: string)
    requires ValidConfig(cfg) && ValidNodes(db.nodes) && id < |db.leases| && Open(db.leases[id])
    requires ShareHolds(cfg, db, db.leases[id], size)
    requires target in cfg.shares && FitsShare(cfg, target, db.leases)
    ensures FitsShare(cfg, target, db.leases[id := WithShape(db.leases[id], kind, size)])
  {
    hide Used, FloorsBeside, LabelsOf, AllLabels, WithShape;
    var l := db.leases[id];
    var mine, strays := InTiers(LabelsOf(cfg, target)), OutsideTiers(AllLabels(cfg));
    ReshapedSum(db.leases, id, kind, size, mine);
    ReshapedSum(db.leases, id, kind, size, strays);
    MatchesShare(cfg, l, target);
    SlotsBesideCharged(cfg, db, l);
    UsedNonNegative(FloorsBeside(cfg, db, l).slots, mine);
  }

  /** A lease counts in a share exactly when it answers to it, and once. */
  lemma MatchesShare(cfg: Config, l: Lease, target: string)
    requires ValidConfig(cfg) && Open(l)
    ensures AnswersTo(cfg, l, target) ==>
      Matches(l, InTiers(LabelsOf(cfg, target))) != Matches(l, OutsideTiers(AllLabels(cfg)))
    ensures !AnswersTo(cfg, l, target) ==>
      !Matches(l, InTiers(LabelsOf(cfg, target))) && !Matches(l, OutsideTiers(AllLabels(cfg)))
  {
    match TierNamed(cfg.tiers, l.tier)
    case Some(t) => LabelsExact(cfg, t, target);
    case None =>
  }

  lemma ReshapedFitsDeployment(cfg: Config, db: Ledger, id: nat, kind: string, size: Size, n: Node)
    requires ValidConfig(cfg) && ValidNodes(db.nodes) && id < |db.leases| && Open(db.leases[id])
    requires ShapeFits(cfg, db, db.leases[id], n, size)
    ensures FitsDeployment(cfg, db.leases[id := WithShape(db.leases[id], kind, size)])
  {
    hide Used, FloorsBeside, ShareHolds;
    ReshapedSum(db.leases, id, kind, size, Everywhere);
    SlotsBesideCharged(cfg, db, db.leases[id]);
    UsedNonNegative(FloorsBeside(cfg, db, db.leases[id]).slots, Everywhere);
  }

  lemma ReshapedKeepsLimits(cfg: Config, db: Ledger, id: nat, kind: string, size: Size)
    requires ValidConfig(cfg) && WithinLimits(cfg, db) && id < |db.leases| && Open(db.leases[id])
    requires db.leases[id].node != "" && NodeNamed(db.nodes, db.leases[id].node).Some?
    requires ShapeFits(cfg, db, db.leases[id], NodeNamed(db.nodes, db.leases[id].node).value, size)
    requires size.vcpu >= db.leases[id].requestedVCPU && size.memory >= db.leases[id].requestedMemory
    ensures WithinLimits(cfg, db.(leases := db.leases[id := WithShape(db.leases[id], kind, size)]))
  {
    hide Used, FitsHost, FitsShare, FitsCap, FitsDeployment, NodeNamed, FloorsBeside, ShareHolds;
    var l := db.leases[id];
    var leases := db.leases[id := WithShape(l, kind, size)];
    assert SoundRow(cfg, l);
    assert SoundRow(cfg, WithShape(l, kind, size));
    forall n | n in db.nodes ensures FitsHost(cfg, n, leases) {
      ReshapedFitsHost(cfg, db, id, kind, size, n);
    }
    forall target | target in cfg.shares ensures FitsShare(cfg, target, leases) {
      ReshapedFitsShare(cfg, db, id, kind, size, target);
    }
    forall t | t in cfg.tiers ensures FitsCap(t, leases) {
      ReshapedFitsCap(db.leases, id, kind, size, t);
    }
    ReshapedFitsDeployment(cfg, db, id, kind, size, NodeNamed(db.nodes, l.node).value);
  }

  lemma ReshapedFitsCap(leases: seq<Lease>, id: nat, kind: string, size: Size, t: Tier)
    requires id < |leases| && Open(leases[id]) && FitsCap(t, leases)
    ensures FitsCap(t, leases[id := WithShape(leases[id], kind, size)])
  {
    hide Used;
    ReshapedSum(leases, id, kind, size, InTiers({t.name}));
  }

  /** Whatever it answers, a resize oversells no host, licence, ceiling, share or cap. */
  lemma ResizeKeepsLimits(cfg: Config, db: Ledger, id: nat, epoch: int, kind: string, size: Size, protect: seq<string>)
    requires ValidConfig(cfg) && WithinLimits(cfg, db)
    ensures WithinLimits(cfg, Resized(cfg, db, id, epoch, kind, size, protect).db)
  {
    hide WithinLimits, ShapeFits, NodeNamed, AllHaveRoom, Judged, Declared, RightArchitecture;
    var c := Resized(cfg, db, id, epoch, kind, size, protect);
    if c.db != db {
      ReshapedKeepsLimits(cfg, db, id, kind, size);
    }
  }

  // ---- The transaction ----

  /** What a target's share leaves once its floors are kept. */
  method ShareLeft(cfg: Config, db: Ledger, l: Lease, floors: FloorCharge, target: string) returns (room: Size)
    requires ValidConfig(cfg) && ChargesFor(cfg, FloorsBeside(cfg, db, l).slots, floors)
    ensures room == ShareBeside(cfg, db, l, target)
  {
    hide Used, FloorsBeside, ShareRoom, LabelsOf;
    room := ShareRoom(cfg, db.leases, target, Footprint(l));
    if target in cfg.shares {
      assert ChargedTo(cfg, FloorsBeside(cfg, db, l).slots, floors, target);
      var kept := SizeAt(floors.byTarget, target);
      room := Size(room.vcpu - kept.vcpu, room.memory - kept.memory);
    }
  }

  /** What the shares leave a lease: its own target's, or the least any has left when its tier is gone. */
  method ShareRoomFor(cfg: Config, db: Ledger, l: Lease, floors: FloorCharge) returns (room: Size)
    requires ValidConfig(cfg) && ChargesFor(cfg, FloorsBeside(cfg, db, l).slots, floors)
    ensures forall size: Size :: size.vcpu <= UNBOUNDED && size.memory <= UNBOUNDED ==>
      (NoLarger(size, room) <==> ShareHolds(cfg, db, l, size))
  {
    hide FloorsBeside, TierNamed, ShareBeside;
    match TierNamed(cfg.tiers, l.tier) {
      case Some(t) =>
        room := ShareLeft(cfg, db, l, floors, t.target);
        if t.target !in cfg.shares {
          NoShare(cfg, db, l, t.target);
        }
      case None =>
        room := Size(UNBOUNDED, UNBOUNDED);
        var left := cfg.shares.Keys;
        while left != {}
          invariant left <= cfg.shares.Keys
          invariant room.vcpu <= UNBOUNDED && room.memory <= UNBOUNDED
          invariant forall size: Size :: size.vcpu <= UNBOUNDED && size.memory <= UNBOUNDED ==>
            (NoLarger(size, room) <==>
             forall target :: target in cfg.shares && target !in left ==> NoLarger(size, ShareBeside(cfg, db, l, target)))
          decreases |left|
        {
          var target :| target in left;
          left := left - {target};
          var r := ShareLeft(cfg, db, l, floors, target);
          room := Size(Min(room.vcpu, r.vcpu), Min(room.memory, r.memory));
        }
    }
  }

  lemma NoShare(cfg: Config, db: Ledger, l: Lease, target: string)
    requires ValidConfig(cfg) && target !in cfg.shares
    ensures ShareBeside(cfg, db, l, target) == Size(UNBOUNDED, UNBOUNDED)
  {
  }

  /** Measures whether a shape fits, the current one handed back and every floor kept. */
  method Fits(cfg: Config, db: Ledger, l: Lease, n: Node, size: Size) returns (ok: bool)
    requires ValidConfig(cfg) && ValidNodes(db.nodes) && size.vcpu <= UNBOUNDED && size.memory <= UNBOUNDED
    ensures ok == ShapeFits(cfg, db, l, n, size)
  {
    hide Used, ShareHolds, FloorsUpTo, ChargedTo, FreeRows;
    var free := FleetResources(cfg, db);
    free.vcpu := free.vcpu[l.node := At(free.vcpu, l.node) + l.vcpu];
    free.memory := free.memory[l.node := At(free.memory, l.node) + l.memory];
    var used := Used(db.leases, Everywhere);
    var floors := ReserveFloorsOn(cfg, db, l.tier, free, Footprint(l));
    var share := ShareRoomFor(cfg, db, l, floors);
    ok := !(size.vcpu > At(free.vcpu, l.node) || size.memory > At(free.memory, l.node) ||
            size.vcpu > cfg.maxVCPU - (used.vcpu - l.vcpu) - floors.vcpu ||
            size.memory > cfg.maxMemory - (used.memory - l.memory) - floors.memory ||
            size.vcpu > share.vcpu || size.memory > share.memory ||
            size.vcpu > n.vcpu || size.memory > n.memory);
    assert NoLarger(size, share) <==> ShareHolds(cfg, db, l, size);
  }

  /** Authorises one fallback shape in one transaction; a growth leaves every protected tier a lease. */
  method ResizeLeaving(cfg: Config, store: Store, id: nat, epoch: int, kind: string, size: Size, protect: seq<string>)
    returns (answer: Answer)
    requires ValidConfig(cfg) && ValidNodes(store.db.nodes) && size.vcpu <= UNBOUNDED && size.memory <= UNBOUNDED
    modifies store
    ensures Change(answer, store.db) == Resized(cfg, old(store.db), id, epoch, kind, size, protect)
  {
    hide ShapeFits, NodeNamed, AllHaveRoom, Declared, RightArchitecture, RoomOf;
    var tx := store.db;
    var found := Load(tx, id, epoch);
    if found != OK {
      return found;
    }
    var l := tx.leases[id];
    if l.phase != Launching {
      return BadTransition;
    }
    if l.provider.None? || l.provider.value.RunsOnHost() || l.node == "" {
      return WrongProvider;
    }
    var host := NodeNamed(tx.nodes, l.node);
    if host.None? {
      return Invalid;
    }
    var declared := Declared(host.value.shapes, kind, size);
    if declared.None? || size.vcpu < l.requestedVCPU || size.memory < l.requestedMemory {
      return NotPlaceable;
    }
    if l.instanceType == kind && Footprint(l) == size {
      return OK;
    }
    if !RightArchitecture(cfg, l, declared.value.arch) {
      return NoCapacity;
    }
    var judged: seq<Tier> := [];
    if size.vcpu > l.vcpu || size.memory > l.memory {
      judged := Resolved(cfg, protect, l.tier);
    }
    var fits := Fits(cfg, tx, l, host.value, size);
    if !fits {
      return NoCapacity;
    }
    tx := tx.(leases := tx.leases[id := WithShape(l, kind, size)]);
    var left := HaveRoom(cfg, tx, judged, Care(judged, [], map[]));
    if !left {
      return NoCapacity;
    }
    store.db := tx;
    return OK;
  }
}

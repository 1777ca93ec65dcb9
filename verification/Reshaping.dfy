/**
 What a change of shape may do, in hosts, leases and charges alone: the lease's
 charge is handed back, every other floor is held, and the new shape must fit
 beside them; a growth must also leave whom the caller protects a lease.
 */
module Reshaping {
  import opened Placement
  import opened Catalogue
  import opened LedgerState
  import opened Fleet
  import opened Floors
  import opened Purchases
  import opened Capacity
  import opened Tightness
  import opened EscrowImpl
  import opened Resizing
  import opened HeldHosts

  /** The ledger with one lease charged nothing: its shape handed back, the lease still there. */
  function Returned(db: Ledger, id: nat): Ledger
    requires id < |db.leases|
  {
    db.(leases := db.leases[id := db.leases[id].(vcpu := 0, memory := 0)])
  }

  lemma ReturnedSum(db: Ledger, id: nat, q: Query)
    requires id < |db.leases| && Open(db.leases[id])
    ensures
      var l, was, now := db.leases[id], Used(db.leases, q), Used(Returned(db, id).leases, q);
      && now.macOS == was.macOS && now.leases == was.leases
      && now.vcpu == was.vcpu - (if Matches(l, q) then l.vcpu else 0) && now.memory == was.memory - (if Matches(l, q) then l.memory else 0)
  {
    hide Used;
    var l := db.leases[id];
    assert WithShape(l, l.instanceType, Size(0, 0)) == l.(vcpu := 0, memory := 0);
    ReshapedSum(db.leases, id, l.instanceType, Size(0, 0), q);
  }

  // ---- The placer sees only the hosts it is asked about ----

  predicate SameOn(a: Free, b: Free, s: seq<Host>)
  {
    forall h :: h in s ==> At(a.vcpu, h) == At(b.vcpu, h) && At(a.memory, h) == At(b.memory, h) && At(a.macOS, h) == At(b.macOS, h)
  }

  /** The two rooms agree about everything a choice among these hosts reads. */
  predicate SameRoom(a: Room, b: Room, s: seq<Host>)
  {
    SameOn(a.free, b.free, s) && a.vcpu == b.vcpu && a.memory == b.memory
  }

  lemma RoomForSame(p: Plan, s: seq<Host>, a: Room, b: Room, h: Host)
    requires PositiveCosts(p) && SameRoom(a, b, s) && h in s
    ensures RoomFor(p, a, h) == RoomFor(p, b, h)
  {
    hide Quot;
  }

  lemma BetterSame(p: Plan, s: seq<Host>, a: Room, b: Room, g: Host, h: Host, roomG: int, roomH: int)
    requires SameRoom(a, b, s) && g in s && h in s
    ensures Better(p, a, g, roomG, h, roomH) <==> Better(p, b, g, roomG, h, roomH)
  {
    LeftOverSame(p, s, a, b, g);
    LeftOverSame(p, s, a, b, h);
    hide LeftOver, SameRoom;
  }

  lemma LeftOverSame(p: Plan, s: seq<Host>, a: Room, b: Room, h: Host)
    requires SameRoom(a, b, s) && h in s
    ensures LeftOver(p, a, h) == LeftOver(p, b, h)
  {
  }

  lemma {:induction false} BestSame(p: Plan, s: seq<Host>, whole: seq<Host>, a: Room, b: Room)
    requires PositiveCosts(p) && (forall h :: h in s ==> h in whole) && SameRoom(a, b, whole)
    ensures Best(p, a, s) == Best(p, b, s)
  {
    hide RoomFor, Better, SameRoom;
    if s != [] {
      var front, last := s[..|s| - 1], s[|s| - 1];
      assert s == front + [last];
      BestSame(p, front, whole, a, b);
      RoomForSame(p, whole, a, b, last);
      var prev := Best(p, a, front);
      if prev.Some? {
        RoomForSame(p, whole, a, b, prev.value);
        BetterSame(p, whole, a, b, last, prev.value, RoomFor(p, a, last), RoomFor(p, a, prev.value));
      }
    }
  }

  lemma SpendSame(p: Plan, s: seq<Host>, a: Room, b: Room, h: Host)
    requires h in p.cost && SameRoom(a, b, s) && h in s
    ensures SameRoom(Spend(p, a, h), Spend(p, b, h), s)
  {
  }

  lemma {:induction false} DrawSame(p: Plan, s: seq<Host>, whole: seq<Host>, a: Room, b: Room, n: nat)
    requires PositiveCosts(p) && (forall h :: h in s ==> h in whole) && SameRoom(a, b, whole)
    ensures Draw(p, s, a, n).hosts == Draw(p, s, b, n).hosts && SameRoom(Draw(p, s, a, n).room, Draw(p, s, b, n).room, whole)
    decreases n
  {
    hide Best, RoomFor, SameRoom, Spend;
    BestSame(p, s, whole, a, b);
    if n > 0 && Best(p, a, s).Some? {
      var h := Best(p, a, s).value;
      SpendSame(p, whole, a, b, h);
      DrawSame(p, s, whole, Spend(p, a, h), Spend(p, b, h), n - 1);
    }
  }

  lemma OrderAmong(cfg: Config, rows: seq<Node>, t: Tier)
    ensures forall h :: h in OrderFor(cfg, rows, t) ==> h in NamesOf(rows)
  {
    hide Eligible;
    var e := EligibleFrom(cfg, rows, t);
    forall h | h in OrderFor(cfg, rows, t) ensures h in NamesOf(rows) {
      var i :| 0 <= i < |e| && e[i].name == h;
      assert e[i] in rows;
      var j :| 0 <= j < |rows| && rows[j] == e[i];
      assert NamesOf(rows)[j] == h;
    }
  }

  // ---- Handing back is charging nothing ----

  /** What a share leaves a floor, credited with what is handed back, is what it leaves once the lease costs nothing. */
  lemma CreditIsReturned(cfg: Config, db: Ledger, id: nat, t: Tier, slots: seq<Lease>)
    requires ValidConfig(cfg) && id < |db.leases| && Open(db.leases[id])
    ensures FloorLimit(cfg, db, db.leases[id].tier, t, Footprint(db.leases[id]), slots) ==
      FloorLimit(cfg, Returned(db, id), db.leases[id].tier, t, Size(0, 0), slots)
  {
    hide Used, LabelsOf, AllLabels;
    var l := db.leases[id];
    MatchesShare(cfg, l, t.target);
    ReturnedSum(db, id, InTiers(LabelsOf(cfg, t.target)));
    ReturnedSum(db, id, OutsideTiers(AllLabels(cfg)));
  }

  lemma MissingSame(cfg: Config, db: Ledger, id: nat, t: Tier)
    requires id < |db.leases| && Open(db.leases[id])
    ensures Missing(cfg, Returned(db, id), t) == Missing(cfg, db, t)
  {
    hide Used;
    ReturnedSum(db, id, TierOnHosts(t.name, LiveNames(db.nodes)));
  }

  lemma FreeSame(cfg: Config, db: Ledger, id: nat)
    requires ValidNodes(db.nodes) && id < |db.leases| && Open(db.leases[id]) && db.leases[id].node != ""
    ensures
      var rows := Placeable(db.nodes);
      SameOn(HandedBack(FreeRows(cfg, rows, db.leases), db.leases[id]), FreeRows(cfg, rows, Returned(db, id).leases), NamesOf(rows))
  {
    hide Used, FreeRows, Placeable, MacOSLimit;
    var rows, l := Placeable(db.nodes), db.leases[id];
    PlaceableDistinct(db.nodes);
    forall h | h in NamesOf(rows)
      ensures
        var a, b := HandedBack(FreeRows(cfg, rows, db.leases), l), FreeRows(cfg, rows, Returned(db, id).leases);
        At(a.vcpu, h) == At(b.vcpu, h) && At(a.memory, h) == At(b.memory, h) && At(a.macOS, h) == At(b.macOS, h)
    {
      var j :| 0 <= j < |rows| && NamesOf(rows)[j] == h;
      assert rows[j] in rows;
      FreeAt(cfg, rows, db.leases, rows[j]);
      FreeAt(cfg, rows, Returned(db, id).leases, rows[j]);
      ReturnedSum(db, id, OnHost(h));
    }
  }

  lemma HoldSame(cfg: Config, db: Ledger, other: Ledger, t: Tier, missing: nat, a: Free, b: Free, limit: Size)
    requires ValidTier(t) && db.nodes == other.nodes && SameOn(a, b, NamesOf(Placeable(db.nodes)))
    ensures
      var x, y := HoldFloor(cfg, db, t, missing, a, limit), HoldFloor(cfg, other, t, missing, b, limit);
      x.slots == y.slots && SameOn(x.free, y.free, NamesOf(Placeable(db.nodes)))
  {
    hide Draw, PlanFor, OrderFor, Placeable, SameOn;
    var rows := Placeable(db.nodes);
    OrderAmong(cfg, rows, t);
    DrawSame(PlanFor(cfg, rows, t), OrderFor(cfg, rows, t), NamesOf(rows),
             Room(a, Max(limit.vcpu, 0), Max(limit.memory, 0)), Room(b, Max(limit.vcpu, 0), Max(limit.memory, 0)), missing);
  }

  lemma {:induction false} FloorsSame(cfg: Config, db: Ledger, id: nat, a: Free, b: Free, k: nat)
    requires ValidConfig(cfg) && id < |db.leases| && Open(db.leases[id]) && k <= |cfg.tiers| && SameOn(a, b, NamesOf(Placeable(db.nodes)))
    ensures
      var l := db.leases[id];
      var x, y := FloorsUpTo(cfg, db, l.tier, a, Footprint(l), k), FloorsUpTo(cfg, Returned(db, id), l.tier, b, Size(0, 0), k);
      x.slots == y.slots && SameOn(x.free, y.free, NamesOf(Placeable(db.nodes)))
  {
    hide HoldFloor, Missing, FloorLimit, SameOn, Placeable;
    if k > 0 {
      var l, t := db.leases[id], cfg.tiers[k - 1];
      FloorsSame(cfg, db, id, a, b, k - 1);
      var x, y := FloorsUpTo(cfg, db, l.tier, a, Footprint(l), k - 1), FloorsUpTo(cfg, Returned(db, id), l.tier, b, Size(0, 0), k - 1);
      MissingSame(cfg, db, id, t);
      CreditIsReturned(cfg, db, id, t, x.slots);
      if Missing(cfg, db, t) > 0 {
        HoldSame(cfg, db, Returned(db, id), t, Missing(cfg, db, t), x.free, y.free, FloorLimit(cfg, db, l.tier, t, Footprint(l), x.slots));
      }
    }
  }

  /** Any tier of this name: floors ask only who is not held for. */
  function Named(name: string): Tier
  {
    Tier(name, 1, 1, Linux, 0, 0, [], "", "", "", "", false, false, false)
  }

  /** The floors held beside a lease handed back keep every other tier's floor of the ledger where it costs nothing. */
  lemma FloorsBesideAreMet(cfg: Config, db: Ledger, id: nat)
    requires ValidConfig(cfg) && ValidNodes(db.nodes) && id < |db.leases| && Open(db.leases[id]) && db.leases[id].node != ""
    ensures FloorsMet(cfg, Returned(db, id), db.leases[id].tier, FloorsBeside(cfg, db, db.leases[id]).slots)
  {
    hide FloorsMet, FreeRows, FloorsUpTo, SameOn;
    var l, rows := db.leases[id], Placeable(db.nodes);
    FreeSame(cfg, db, id);
    FloorsSame(cfg, db, id, HandedBack(FreeRows(cfg, rows, db.leases), l), FreeRows(cfg, rows, Returned(db, id).leases), |cfg.tiers|);
    FloorsAreMet(cfg, Returned(db, id), Named(l.tier));
  }

  // ---- What the host and the deployment leave ----

  lemma NoSlotElsewhere(cfg: Config, db: Ledger, l: Lease, n: Node)
    requires ValidConfig(cfg) && ValidNodes(db.nodes) && n in db.nodes && n !in Placeable(db.nodes)
    ensures Used(FloorsBeside(cfg, db, l).slots, OnHost(n.name)) == NOTHING
  {
    hide Used, FloorsUpTo, FreeRows, Placeable, Eligible, NodeCost;
    var slots := FloorsBeside(cfg, db, l).slots;
    FloorsPlace(cfg, db, l.tier, HandedBack(FreeRows(cfg, Placeable(db.nodes), db.leases), l), Footprint(l), |cfg.tiers|);
    HostOf(db.nodes, n);
    forall s | s in slots ensures !Matches(s, OnHost(n.name)) {
      assert SlotIsPlaced(cfg, db.nodes, s);
      var t, m :| t in cfg.tiers && m in Placeable(db.nodes) && IsSlotOf(cfg, s, t, m);
    }
    UsedNone(slots, OnHost(n.name));
  }

  /** A host in contact and taking work leaves a handed-back lease its own size less every other charge and every slot;
      another leaves it what it handed back. */
  lemma HostLeaves(cfg: Config, db: Ledger, id: nat, n: Node)
    requires ValidConfig(cfg) && ValidNodes(db.nodes) && id < |db.leases| && Open(db.leases[id]) && n in db.nodes && n.name == db.leases[id].node
    ensures
      var l, held := db.leases[id], FloorsBeside(cfg, db, db.leases[id]);
      var a, b := Used(Returned(db, id).leases, OnHost(n.name)), Used(held.slots, OnHost(n.name));
      if n.live && !n.drained
      then At(held.free.vcpu, n.name) == n.vcpu - a.vcpu - b.vcpu && At(held.free.memory, n.name) == n.memory - a.memory - b.memory
      else At(held.free.vcpu, n.name) == l.vcpu && At(held.free.memory, n.name) == l.memory
  {
    hide Used, FloorsUpTo, FreeRows, Placeable, MacOSLimit;
    var l, rows := db.leases[id], Placeable(db.nodes);
    FloorsTake(cfg, db, l.tier, HandedBack(FreeRows(cfg, rows, db.leases), l), Footprint(l), |cfg.tiers|, n.name);
    ReturnedSum(db, id, OnHost(n.name));
    assert "" !in NamesOf(db.nodes);
    assert l.node != "" by {
      var j :| 0 <= j < |db.nodes| && db.nodes[j] == n;
      assert NamesOf(db.nodes)[j] == n.name;
    }
    if n in rows {
      PlaceableDistinct(db.nodes);
      FreeAt(cfg, rows, db.leases, n);
    } else {
      HostOf(db.nodes, n);
      FreeElsewhere(cfg, rows, db.leases, n.name);
      NoSlotElsewhere(cfg, db, l, n);
    }
  }

  /** A shape fits beside the slots held, in the ledger where its lease costs nothing: its host, or on a host out of
      placement what it already has, the deployment, and every share its tier answers to. */
  predicate ShapeFitsBeside(cfg: Config, returned: Ledger, l: Lease, n: Node, size: Size, slots: seq<Lease>)
  {
    var a, b := Used(returned.leases, OnHost(n.name)), Used(slots, OnHost(n.name));
    && (if n.live && !n.drained then a.vcpu + b.vcpu + size.vcpu <= n.vcpu && a.memory + b.memory + size.memory <= n.memory
        else size.vcpu <= l.vcpu && size.memory <= l.memory)
    && size.vcpu <= n.vcpu && size.memory <= n.memory
    && CeilingFits(cfg, returned, Cost(size.vcpu, size.memory, ""), slots)
    && forall target :: target in cfg.shares && Answers(cfg, l, target) ==> ShareFits(cfg, returned, target, Cost(size.vcpu, size.memory, ""), slots)
  }

  /** A lease answers to its own tier's target, and to every target where its tier left the catalogue. */
  predicate Answers(cfg: Config, l: Lease, target: string)
  {
    forall t :: t in cfg.tiers && t.name == l.tier ==> t.target == target
  }

  lemma AnswersIs(cfg: Config, l: Lease, target: string)
    requires ValidConfig(cfg)
    ensures Answers(cfg, l, target) <==> AnswersTo(cfg, l, target)
  {
    match TierNamed(cfg.tiers, l.tier)
    case Some(t) =>
      forall u | u in cfg.tiers && u.name == l.tier ensures u == t {
        TierNamedUnique(cfg, u);
      }
    case None =>
  }

  lemma {:induction false} SumCovers(leases: seq<Lease>, id: nat)
    requires AllCharged(leases) && id < |leases| && Open(leases[id])
    ensures Used(leases, Everywhere).vcpu >= leases[id].vcpu && Used(leases, Everywhere).memory >= leases[id].memory
  {
    hide Used;
    var front, last := leases[..|leases| - 1], leases[|leases| - 1];
    assert leases == front + [last] && last in leases;
    UsedConcat(front, [last], Everywhere);
    UsedOne(last, Everywhere);
    UsedNonNegative(front, Everywhere);
    if id < |front| {
      SumCovers(front, id);
    }
  }

  /** One share, with the ceiling holding: it leaves the shape room exactly when the shape fits it. */
  lemma ShareLeaves(cfg: Config, db: Ledger, id: nat, size: Size, target: string)
    requires ValidConfig(cfg) && ValidNodes(db.nodes) && HeldHosts.Sized(cfg, db) && id < |db.leases| && Open(db.leases[id]) && target in cfg.shares
    requires AnswersTo(cfg, db.leases[id], target)
    requires CeilingFits(cfg, Returned(db, id), Cost(size.vcpu, size.memory, ""), FloorsBeside(cfg, db, db.leases[id]).slots)
    ensures NoLarger(size, ShareBeside(cfg, db, db.leases[id], target)) <==>
      ShareFits(cfg, Returned(db, id), target, Cost(size.vcpu, size.memory, ""), FloorsBeside(cfg, db, db.leases[id]).slots)
  {
    hide Used, LabelsOf, AllLabels, FloorsBeside;
    var l, slots := db.leases[id], FloorsBeside(cfg, db, db.leases[id]).slots;
    var mine, strays := InTiers(LabelsOf(cfg, target)), OutsideTiers(AllLabels(cfg));
    MatchesShare(cfg, l, target);
    ReturnedSum(db, id, mine);
    ReturnedSum(db, id, strays);
    ReturnedSum(db, id, Everywhere);
    SumCovers(db.leases, id);
    SlotsBesideCharged(cfg, db, l);
    UsedWithin(slots, mine, Everywhere);
  }

  lemma ShapeFitsMeans(cfg: Config, db: Ledger, id: nat, n: Node, size: Size)
    requires ValidConfig(cfg) && ValidNodes(db.nodes) && HeldHosts.Sized(cfg, db) && id < |db.leases| && Open(db.leases[id])
    requires n in db.nodes && n.name == db.leases[id].node
    ensures ShapeFits(cfg, db, db.leases[id], n, size) <==>
      ShapeFitsBeside(cfg, Returned(db, id), db.leases[id], n, size, FloorsBeside(cfg, db, db.leases[id]).slots)
  {
    hide Used, FloorsBeside, ShareBeside, ShareFits, Answers, AnswersTo;
    var l, slots := db.leases[id], FloorsBeside(cfg, db, db.leases[id]).slots;
    HostLeaves(cfg, db, id, n);
    ReturnedSum(db, id, Everywhere);
    SumCovers(db.leases, id);
    SlotsBesideCharged(cfg, db, l);
    UsedNonNegative(slots, Everywhere);
    if CeilingFits(cfg, Returned(db, id), Cost(size.vcpu, size.memory, ""), slots) {
      forall target | target in cfg.shares
        ensures Answers(cfg, l, target) <==> AnswersTo(cfg, l, target)
        ensures Answers(cfg, l, target) ==>
          (NoLarger(size, ShareBeside(cfg, db, l, target)) <==> ShareFits(cfg, Returned(db, id), target, Cost(size.vcpu, size.memory, ""), slots))
      {
        AnswersIs(cfg, l, target);
        if AnswersTo(cfg, l, target) {
          ShareLeaves(cfg, db, id, size, target);
        }
      }
    }
  }

  // ---- What a change of shape answers ----

  /** The host declares the shape; on EC2 the architecture of its first declaration is one the lease's tier runs on, or
      no tier names one where the lease's tier is gone. */
  predicate Declares(n: Node, kind: string, size: Size)
  {
    exists i :: 0 <= i < |n.shapes| && IsShape(n.shapes[i], kind, size)
  }

  predicate IsShape(s: Shape, kind: string, size: Size) { s.kind == kind && s.vcpu == size.vcpu && s.memory == size.memory }

  ghost predicate ArchitectureFits(cfg: Config, l: Lease, n: Node, kind: string, size: Size)
  {
    l.provider == Some(EC2) ==>
      exists i :: 0 <= i < |n.shapes| && IsShape(n.shapes[i], kind, size) && (forall j :: 0 <= j < i ==> !IsShape(n.shapes[j], kind, size)) &&
        (forall t :: t in cfg.tiers && t.name == l.tier ==> t.arch == "" || t.arch == n.shapes[i].arch) &&
        ((forall t :: t in cfg.tiers ==> t.name != l.tier) ==> !cfg.namesArch)
  }

  lemma {:induction false} DeclaredFirst(shapes: seq<Shape>, kind: string, size: Size)
    ensures
      var d := Declared(shapes, kind, size);
      if d.None? then forall i :: 0 <= i < |shapes| ==> !IsShape(shapes[i], kind, size)
      else exists i :: 0 <= i < |shapes| && d.value == shapes[i] && IsShape(shapes[i], kind, size) && forall j :: 0 <= j < i ==> !IsShape(shapes[j], kind, size)
  {
    if shapes != [] && !IsShape(shapes[0], kind, size) {
      DeclaredFirst(shapes[1..], kind, size);
      assert forall j :: 0 < j < |shapes| ==> shapes[j] == shapes[1..][j - 1];
      if Declared(shapes, kind, size).Some? {
        var i :| 0 <= i < |shapes[1..]| && Declared(shapes, kind, size).value == shapes[1..][i] && IsShape(shapes[1..][i], kind, size) &&
          forall j :: 0 <= j < i ==> !IsShape(shapes[1..][j], kind, size);
        assert shapes[i + 1] == shapes[1..][i];
      }
    }
  }

  lemma ArchitectureIs(cfg: Config, l: Lease, n: Node, kind: string, size: Size)
    requires ValidConfig(cfg) && Declared(n.shapes, kind, size).Some?
    ensures ArchitectureFits(cfg, l, n, kind, size) <==> RightArchitecture(cfg, l, Declared(n.shapes, kind, size).value.arch)
  {
    hide Declared, IsShape;
    DeclaredFirst(n.shapes, kind, size);
    var i :| 0 <= i < |n.shapes| && Declared(n.shapes, kind, size).value == n.shapes[i] && IsShape(n.shapes[i], kind, size) &&
      forall j :: 0 <= j < i ==> !IsShape(n.shapes[j], kind, size);
    forall u | u in cfg.tiers && u.name == l.tier ensures TierNamed(cfg.tiers, l.tier) == Some(u) {
      TierNamedUnique(cfg, u);
    }
  }

  /** The lease is launching, bound to a host that sells shapes, and the host declares this one, large enough for what
      the lease was reserved for. */
  predicate MayAsk(db: Ledger, id: nat, epoch: int, kind: string, size: Size)
  {
    id < |db.leases| &&
    var l := db.leases[id];
    && l.epoch == epoch && l.phase == Launching && l.node != "" && (l.provider == Some(EC2) || l.provider == Some(CodeBuild))
    && NodeNamed(db.nodes, l.node).Some? && Declares(NodeNamed(db.nodes, l.node).value, kind, size)
    && size.vcpu >= l.requestedVCPU && size.memory >= l.requestedMemory
  }

  predicate HasShape(l: Lease, kind: string, size: Size) { l.instanceType == kind && l.vcpu == size.vcpu && l.memory == size.memory }

  /** Every tier the caller protects, the lease's own apart, could be sold one lease. */
  ghost predicate LeavesProtected(cfg: Config, db: Ledger, tier: string, protect: seq<string>)
    requires ValidConfig(cfg)
  {
    forall w :: w in cfg.tiers && w.name in protect && w.name != tier ==> RoomOf(cfg, db, w, map[]) >= 1
  }

  predicate Grows(l: Lease, size: Size) { size.vcpu > l.vcpu || size.memory > l.memory }

  lemma JudgedMeans(cfg: Config, db: Ledger, l: Lease, size: Size, protect: seq<string>)
    requires ValidConfig(cfg)
    ensures
      var judged := Judged(cfg, l, size, protect);
      (forall t :: t in judged ==> ValidTier(t)) &&
      (AllHaveRoom(cfg, db, judged, Care(judged, [], map[])) <==> (Grows(l, size) ==> LeavesProtected(cfg, db, l.tier, protect)))
  {
    hide RoomOf;
    forall w | w in cfg.tiers ensures TierNamed(cfg.tiers, w.name) == Some(w) {
      TierNamedUnique(cfg, w);
    }
  }

  lemma MayAskMeans(cfg: Config, db: Ledger, id: nat, epoch: int, kind: string, size: Size)
    requires ValidConfig(cfg)
    ensures MayAsk(db, id, epoch, kind, size) <==>
      && Load(db, id, epoch) == OK
      && (ResizeRefusal(cfg, db, db.leases[id], kind, size) == OK ||
          (&& ResizeRefusal(cfg, db, db.leases[id], kind, size) == NoCapacity && !HasShape(db.leases[id], kind, size)
           && !ArchitectureFits(cfg, db.leases[id], NodeNamed(db.nodes, db.leases[id].node).value, kind, size)))
    ensures MayAsk(db, id, epoch, kind, size) && !HasShape(db.leases[id], kind, size) ==>
      (ResizeRefusal(cfg, db, db.leases[id], kind, size) == OK <==>
         ArchitectureFits(cfg, db.leases[id], NodeNamed(db.nodes, db.leases[id].node).value, kind, size))
  {
    hide NodeNamed, Declared, RightArchitecture, ArchitectureFits, IsShape;
    if id < |db.leases| && NodeNamed(db.nodes, db.leases[id].node).Some? {
      var n := NodeNamed(db.nodes, db.leases[id].node).value;
      DeclaredFirst(n.shapes, kind, size);
      if Declared(n.shapes, kind, size).Some? {
        ArchitectureIs(cfg, db.leases[id], n, kind, size);
      }
    }
  }

  /** A change of shape is authorised exactly when the lease may ask for it, and it has the shape already, or the
      architecture fits, the shape fits beside slots that keep every other floor, and a growth leaves every protected
      tier a lease. The row then has exactly that shape, and nothing else changes. */
  lemma ResizeExactlyWhen(cfg: Config, db: Ledger, id: nat, epoch: int, kind: string, size: Size, protect: seq<string>)
    returns (slots: seq<Lease>)
    requires ValidConfig(cfg) && ValidNodes(db.nodes) && HeldHosts.Sized(cfg, db)
    ensures MayAsk(db, id, epoch, kind, size) ==> FloorsMet(cfg, Returned(db, id), db.leases[id].tier, slots)
    ensures
      var c := Resized(cfg, db, id, epoch, kind, size, protect);
      && (c.answer != OK ==> c.db == db)
      && (c.answer == OK ==> MayAsk(db, id, epoch, kind, size))
      && (MayAsk(db, id, epoch, kind, size) ==>
            var l, n := db.leases[id], NodeNamed(db.nodes, db.leases[id].node).value;
            var after := db.(leases := db.leases[id := l.(vcpu := size.vcpu, memory := size.memory, instanceType := kind)]);
            if HasShape(l, kind, size) then c.answer == OK && c.db == db
            else if ArchitectureFits(cfg, l, n, kind, size) && ShapeFitsBeside(cfg, Returned(db, id), l, n, size, slots) &&
                    (Grows(l, size) ==> LeavesProtected(cfg, after, l.tier, protect))
            then c.answer == OK && c.db == after
            else c.answer == NoCapacity)
  {
    hide FloorsMet, NodeNamed, ResizeRefusal, ArchitectureFits, ShapeFits, ShapeFitsBeside, LeavesProtected, AllHaveRoom, Judged, FloorsBeside, Declares;
    slots := [];
    MayAskMeans(cfg, db, id, epoch, kind, size);
    if MayAsk(db, id, epoch, kind, size) {
      var l, n := db.leases[id], NodeNamed(db.nodes, db.leases[id].node).value;
      slots := FloorsBeside(cfg, db, l).slots;
      FloorsBesideAreMet(cfg, db, id);
      ShapeFitsMeans(cfg, db, id, n, size);
      JudgedMeans(cfg, db.(leases := db.leases[id := WithShape(l, kind, size)]), l, size, protect);
    }
  }
}

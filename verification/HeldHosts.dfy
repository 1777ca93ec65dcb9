/**
 Room, in hosts, leases and charges alone: when one more of a tier fits a host,
 what hosts held for other tiers leave, and when a waiting tier has room.
 */
module HeldHosts {
  import opened Placement
  import opened Catalogue
  import opened LedgerState
  import opened Fleet
  import opened Floors
  import opened Purchases
  import opened Capacity
  import opened Tightness
  import opened EscrowImpl
  import opened Safety
  import opened Candidates

  /** One more lease of a tier fits a host beside all leases and the slots held: the host, a licence where the guest
      needs one, the deployment, and the share of the tier's target. */
  predicate FitsBeside(cfg: Config, db: Ledger, t: Tier, n: Node, slots: seq<Lease>)
  {
    NodeCost(n, t).Some? &&
    var c, a, b := NodeCost(n, t).value, Used(db.leases, OnHost(n.name)), Used(slots, OnHost(n.name));
    && a.vcpu + b.vcpu + c.vcpu <= n.vcpu && a.memory + b.memory + c.memory <= n.memory
    && (t.guestOS == MacOS ==> a.macOS + b.macOS + 1 <= MacOSLimit(cfg, n.name))
    && CeilingFits(cfg, db, c, slots)
    && (t.target in cfg.shares ==> ShareFits(cfg, db, t.target, c, slots))
  }

  /** The deployment's size is a machine integer, and what is charged is something. */
  ghost predicate Sized(cfg: Config, db: Ledger)
  {
    cfg.maxVCPU <= UNBOUNDED && cfg.maxMemory <= UNBOUNDED && AllCharged(db.leases)
  }

  /** What the deployment and the share leave, against one charge. */
  lemma LimitsLeave(cfg: Config, db: Ledger, t: Tier, c: Cost, slots: seq<Lease>)
    requires Sized(cfg, db) && AllCharged(slots) && Positive(c)
    ensures
      var used, floors, share := Used(db.leases, Everywhere), Used(slots, Everywhere), ShareAfter(cfg, db.leases, t.target, Size(0, 0), slots);
      (&& c.vcpu <= Min(Max(cfg.maxVCPU - used.vcpu - floors.vcpu, 0), Max(share.vcpu, 0))
       && c.memory <= Min(Max(cfg.maxMemory - used.memory - floors.memory, 0), Max(share.memory, 0))) <==>
      CeilingFits(cfg, db, c, slots) && (t.target in cfg.shares ==> ShareFits(cfg, db, t.target, c, slots))
  {
    hide Used, LabelsOf, AllLabels;
    UsedNonNegative(db.leases, Everywhere);
    UsedNonNegative(slots, Everywhere);
    if t.target in cfg.shares {
      var mine := InTiers(LabelsOf(cfg, t.target));
      UsedWithin(slots, mine, Everywhere);
      UsedNonNegative(slots, mine);
    }
  }

  /** A tier's offer has room on a host it may use exactly when one more fits there. */
  lemma RoomIsOneMore(cfg: Config, db: Ledger, t: Tier, n: Node)
    requires ValidConfig(cfg) && t in cfg.tiers && ValidNodes(db.nodes) && Sized(cfg, db)
    requires n in db.nodes && n.live && !n.drained && Eligible(cfg, n, t)
    ensures RoomFor(OfferTo(cfg, db, t).plan, OfferTo(cfg, db, t).room, n.name) > 0 <==> FitsBeside(cfg, db, t, n, FloorsFor(cfg, db, t).slots)
  {
    hide Used, PlanFor, OrderFor, Placeable, Eligible, FreeRows, NodeCost, ShareFits, CeilingFits, MacOSLimit, FloorsUpTo, RoomFor, ShareAfter;
    var o, rows, h := OfferTo(cfg, db, t), Placeable(db.nodes), n.name;
    var free := FreeRows(cfg, rows, db.leases);
    OfferedAtCost(cfg, db.nodes, t, n);
    PlaceableDistinct(db.nodes);
    RoomForMeansFits(o.plan, o.room, h);
    FreeAt(cfg, rows, db.leases, n);
    FloorsTake(cfg, db, t.name, free, Size(0, 0), |cfg.tiers|, h);
    FloorSlotsCharged(cfg, db, t);
    LimitsLeave(cfg, db, t, o.plan.cost[h], FloorsFor(cfg, db, t).slots);
  }

  /** Some host the tier may use takes one more of it. */
  ghost predicate SomeHostFits(cfg: Config, db: Ledger, t: Tier, slots: seq<Lease>)
  {
    exists n :: n in db.nodes && n.live && !n.drained && Eligible(cfg, n, t) && FitsBeside(cfg, db, t, n, slots)
  }

  /** There is headroom exactly when the tier is below its cap and some host takes one more of it beside every floor. */
  lemma HeadroomExactlyWhen(cfg: Config, db: Ledger, t: Tier) returns (slots: seq<Lease>)
    requires ValidConfig(cfg) && t in cfg.tiers && ValidNodes(db.nodes) && Sized(cfg, db)
    ensures FloorsMet(cfg, db, t.name, slots)
    ensures Headroom(cfg, db, t) >= 1 <==>
      (t.maxConcurrent > 0 ==> OpenLeases(db, t.name) < t.maxConcurrent) && SomeHostFits(cfg, db, t, slots)
  {
    hide FloorsMet, OfferTo, OpenLeases, Used, Sized, ValidNodes, SomeHostFits, FloorsFor, Best, Total, Fill, RoomFor;
    slots := FloorsFor(cfg, db, t).slots;
    FloorsAreMet(cfg, db, t);
    OpenLeasesAre(db, t.name);
    TotalIsBest(OfferTo(cfg, db, t));
    BestIsSomeHost(cfg, db, t);
  }

  lemma BestIsSomeHost(cfg: Config, db: Ledger, t: Tier)
    requires ValidConfig(cfg) && t in cfg.tiers && ValidNodes(db.nodes) && Sized(cfg, db)
    ensures Best(OfferTo(cfg, db, t).plan, OfferTo(cfg, db, t).room, OfferTo(cfg, db, t).order).Some? <==> SomeHostFits(cfg, db, t, FloorsFor(cfg, db, t).slots)
  {
    hide FitsBeside, Eligible, OfferTo, RoomFor, Sized, ValidNodes, FloorsFor;
    var o, slots := OfferTo(cfg, db, t), FloorsFor(cfg, db, t).slots;
    if Best(o.plan, o.room, o.order).Some? {
      var n := PlannedHost(cfg, db.nodes, t, Best(o.plan, o.room, o.order).value);
      RoomIsOneMore(cfg, db, t, n);
    }
    if n :| n in db.nodes && n.live && !n.drained && Eligible(cfg, n, t) && FitsBeside(cfg, db, t, n, slots) {
      OfferedAtCost(cfg, db.nodes, t, n);
      RoomIsOneMore(cfg, db, t, n);
    }
  }

  lemma TotalIsBest(o: Offer)
    requires PositiveCosts(o.plan)
    ensures Total(o) >= 1 <==> Best(o.plan, o.room, o.order).Some?
  {
  }

  /** The owner of a held host fits there exactly when the catalogue knows it, it may use the host, and one more of it
      fits the host beside every other floor. */
  lemma OwnerFitsExactlyWhen(cfg: Config, db: Ledger, holds: Holds, h: Host)
    requires ValidConfig(cfg) && ValidNodes(db.nodes) && Sized(cfg, db) && h in holds
    ensures OwnerFits(cfg, db, holds, h) <==>
      exists u, n :: u in cfg.tiers && u.name == holds[h] && n in db.nodes && n.name == h && n.live && !n.drained && Eligible(cfg, n, u) &&
                     FitsBeside(cfg, db, u, n, FloorsFor(cfg, db, u).slots)
  {
    hide FitsBeside, Eligible, OfferTo, RoomFor, Sized, FloorsFor;
    match TierNamed(cfg.tiers, holds[h])
    case None =>
    case Some(u) =>
      var o := OfferTo(cfg, db, u);
      if RoomFor(o.plan, o.room, h) > 0 {
        RoomMeansPlanned(o.plan, o.room, h);
        var n := PlannedHost(cfg, db.nodes, u, h);
        RoomIsOneMore(cfg, db, u, n);
      }
      if v, n :| v in cfg.tiers && v.name == holds[h] && n in db.nodes && n.name == h && n.live && !n.drained && Eligible(cfg, n, v) &&
                 FitsBeside(cfg, db, v, n, FloorsFor(cfg, db, v).slots) {
        TierNamedUnique(cfg, v);
        RoomIsOneMore(cfg, db, v, n);
      }
  }

  lemma RoomMeansPlanned(p: Plan, r: Room, h: Host)
    requires PositiveCosts(p) && RoomFor(p, r, h) > 0
    ensures h in p.cost
  {
  }

  // ---- What held hosts leave ----

  /** On a host held for a tier the catalogue knows, a purchase is offered what that tier's request leaves; one held for
      a tier it does not know is not offered; every other is offered whole, and so is the deployment. */
  lemma HeldHostOffers(cfg: Config, o: Offer, holds: Holds, h: Host)
    requires ValidConfig(cfg)
    ensures
      var k := KeepFor(cfg, o, holds);
      && k.order == o.order && k.plan == o.plan.(cost := k.plan.cost) && k.room == o.room.(free := k.room.free)
      && (h in k.plan.cost <==> h in o.plan.cost && (h in holds ==> exists u :: u in cfg.tiers && u.name == holds[h]))
      && (h in k.plan.cost ==> k.plan.cost[h] == o.plan.cost[h])
      && (forall u :: u in cfg.tiers && h in holds && u.name == holds[h] ==>
            At(k.room.free.vcpu, h) == At(o.room.free.vcpu, h) - u.vcpu && At(k.room.free.memory, h) == At(o.room.free.memory, h) - u.memory)
      && (h !in holds ==> At(k.room.free.vcpu, h) == At(o.room.free.vcpu, h) && At(k.room.free.memory, h) == At(o.room.free.memory, h))
      && At(k.room.free.macOS, h) == At(o.room.free.macOS, h)
  {
    KeepForAt(cfg, o, holds, h);
    forall u | u in cfg.tiers && h in holds && u.name == holds[h] ensures TierNamed(cfg.tiers, holds[h]) == Some(u) {
      TierNamedUnique(cfg, u);
    }
  }

  /** How many leases an attempt inserts: what is wanted, within headroom and within what held hosts leave; but a tier
      below its floor that they leave nothing takes held room, up to its floor. */
  lemma AttemptInserts(cfg: Config, db: Ledger, t: Tier, want: nat, care: Care, expiresAt: int)
    requires ValidConfig(cfg) && ValidTier(t)
    ensures
      var rows, holds := |RowsFor(cfg, db, t, want, care, expiresAt)|, HoldsAgainst(care, t.name);
      var left := Total(KeepFor(cfg, OfferTo(cfg, db, t), holds));
      var lacking := t.reserved - ServingLeases(db, t.name);
      rows ==
        if |holds| == 0 then Min(want, Headroom(cfg, db, t))
        else if left == 0 && lacking > 0 then Min(Min(want, lacking), Headroom(cfg, db, t))
        else Min(Min(want, Headroom(cfg, db, t)), left)
  {
    hide OfferTo, KeepFor, Headroom, Draw, Fill, Missing, HoldsAgainst, ServingLeases;
    ServingIsMissing(cfg, db, t);
    HeadroomWithinTotal(cfg, db, t);
    var terms := TermsFor(cfg, db, t, want, care);
    DrawIsFillPrefix(terms.offer.plan, terms.offer.order, terms.offer.room, Max(Min(terms.limit, Headroom(cfg, db, t)), 0));
    if |HoldsAgainst(care, t.name)| > 0 {
      KeptPositive(cfg, OfferTo(cfg, db, t), HoldsAgainst(care, t.name));
    }
  }

  lemma KeptPositive(cfg: Config, o: Offer, holds: Holds)
    requires PositiveCosts(o.plan)
    ensures PositiveCosts(KeepFor(cfg, o, holds).plan)
  {
  }

  /** A waiting tier has room exactly when a purchase of one would insert it. */
  lemma RoomMeansGrant(cfg: Config, db: Ledger, t: Tier, care: Care, expiresAt: int)
    requires ValidConfig(cfg) && ValidTier(t)
    ensures RoomOf(cfg, db, t, HoldsAgainst(care, t.name)) >= 1 <==> RowsFor(cfg, db, t, 1, care, expiresAt) != []
  {
    hide OfferTo, KeepFor, Headroom, Draw, Fill, Missing, HoldsAgainst, ServingLeases, RowsFor;
    AttemptInserts(cfg, db, t, 1, care, expiresAt);
    ServingIsMissing(cfg, db, t);
    HeadroomWithinTotal(cfg, db, t);
  }

  // ---- When a purchase is rolled back ----

  /** The ledger left has no lease for a tier the caller protects, or none for one it keeps that had one before. */
  ghost predicate LeavesShort(cfg: Config, before: Ledger, after: Ledger, buyer: string, purchase: Purchase)
    requires ValidConfig(cfg)
  {
    || (exists w :: w in cfg.tiers && w.name in purchase.protect && w.name != buyer && RoomOf(cfg, after, w, HoldsOn(purchase, w.name)) < 1)
    || (exists w :: w in cfg.tiers && w.name in purchase.keep && w.name != buyer &&
                    RoomOf(cfg, before, w, HoldsOn(purchase, w.name)) >= 1 && RoomOf(cfg, after, w, HoldsOn(purchase, w.name)) < 1)
  }

  /** Hosts are held against the tier, and it is not below its floor with nothing left to it elsewhere. */
  ghost predicate MustLeaveHeld(cfg: Config, db: Ledger, t: Tier, holds: Holds)
    requires ValidConfig(cfg) && ValidTier(t)
  {
    KeptPositive(cfg, OfferTo(cfg, db, t), holds);
    |holds| > 0 && !(Total(KeepFor(cfg, OfferTo(cfg, db, t), holds)) == 0 && t.reserved > ServingLeases(db, t.name))
  }

  /** An attempt is rolled back exactly when admission is open, nobody protected was short already, it would insert
      something, and that would leave somebody short whom the caller named or a held host's owner out of its host. */
  lemma RolledBackExactlyWhen(cfg: Config, db: Ledger, t: Tier, want: nat, purchase: Purchase, expiresAt: int)
    requires ValidConfig(cfg) && t in cfg.tiers
    ensures
      var care := CareOf(cfg, purchase, t.name);
      var rows, holds := RowsFor(cfg, db, t, want, care, expiresAt), HoldsOn(purchase, t.name);
      var after := db.(leases := db.leases + rows);
      ValidCare(care) &&
      (RolledBack(cfg, db, t, want, care, expiresAt) <==>
         && want > 0 && !db.admission.sealed && rows != []
         && (forall w :: w in cfg.tiers && w.name in purchase.protect && w.name != t.name ==> RoomOf(cfg, db, w, HoldsOn(purchase, w.name)) >= 1)
         && (LeavesShort(cfg, db, after, t.name, purchase) || (MustLeaveHeld(cfg, db, t, holds) && !KeepsOwners(cfg, db, after, holds))))
  {
    hide RoomOf, RowsFor, CareOf, OwnerFits, HoldsAgainst, HoldsOn, TermsFor, ServingLeases, MustLeaveHeld;
    var care := CareOf(cfg, purchase, t.name);
    CareIsValid(cfg, purchase, t.name);
    CareMembers(cfg, purchase, t.name);
    KeepingMeans(cfg, db, t, want, care);
    forall w | w in cfg.tiers
      ensures w in care.guarded <==> w.name in purchase.protect && w.name != t.name
      ensures w in care.kept <==> w.name in purchase.keep && w.name != t.name
      ensures HoldsAgainst(care, w.name) == HoldsOn(purchase, w.name)
    {
      CareMeans(cfg, purchase, t.name, w);
    }
    var after := Inserted(db, RowsFor(cfg, db, t, want, care, expiresAt));
    OwnersExactly(cfg, db, after, HoldsOn(purchase, t.name));
  }

  lemma CareMembers(cfg: Config, purchase: Purchase, buyer: string)
    ensures forall w :: w in CareOf(cfg, purchase, buyer).guarded || w in CareOf(cfg, purchase, buyer).kept ==> w in cfg.tiers
  {
  }

  lemma KeepingMeans(cfg: Config, db: Ledger, t: Tier, want: int, care: Care)
    requires ValidConfig(cfg) && ValidTier(t)
    ensures TermsFor(cfg, db, t, want, care).keeping <==> MustLeaveHeld(cfg, db, t, HoldsAgainst(care, t.name))
  {
    hide OfferTo, KeepFor, Fill, Missing, ServingLeases, HoldsAgainst;
    ServingIsMissing(cfg, db, t);
  }

  lemma OwnersExactly(cfg: Config, before: Ledger, after: Ledger, holds: Holds)
    requires ValidConfig(cfg)
    ensures OwnersWithRoom(cfg, before, holds) <= OwnersWithRoom(cfg, after, holds) <==> KeepsOwners(cfg, before, after, holds)
  {
    hide OwnerFits;
    if OwnersWithRoom(cfg, before, holds) <= OwnersWithRoom(cfg, after, holds) {
      OwnersStay(cfg, before, after, holds);
    }
  }

  /** What one attempt comes to: nothing where nothing is wanted, admission is sealed, somebody protected is short or
      it is rolled back; otherwise everything it would insert. */
  lemma AttemptBuysExactly(cfg: Config, db: Ledger, t: Tier, want: nat, purchase: Purchase, now: int)
    requires ValidConfig(cfg) && t in cfg.tiers
    ensures
      var care, after := CareOf(cfg, purchase, t.name), Purchased(cfg, db, t.name, want, purchase, now);
      var rows := RowsFor(cfg, db, t, want, care, now + cfg.leaseTTL);
      ValidCare(care) && after ==
        if want == 0 || db.admission.sealed || RolledBack(cfg, db, t, want, care, now + cfg.leaseTTL) ||
           !(forall w :: w in cfg.tiers && w.name in purchase.protect && w.name != t.name ==> RoomOf(cfg, db, w, HoldsOn(purchase, w.name)) >= 1)
        then db else db.(leases := db.leases + rows)
  {
    hide RoomOf, RowsFor, CareOf, HoldsAgainst, HoldsOn, LeavesWaiters, TermsFor;
    var care := CareOf(cfg, purchase, t.name);
    CareIsValid(cfg, purchase, t.name);
    CareMembers(cfg, purchase, t.name);
    TierNamedUnique(cfg, t);
    assert db.(leases := db.leases + []) == db;
    forall w | w in cfg.tiers
      ensures w in care.guarded <==> w.name in purchase.protect && w.name != t.name
      ensures HoldsAgainst(care, w.name) == HoldsOn(purchase, w.name)
    {
      CareMeans(cfg, purchase, t.name, w);
    }
  }
}

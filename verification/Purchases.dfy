/**
 What a tier may buy: headroom, the room held hosts leave it, and one attempt to
 buy, as functions of the ledger the transaction reads.
 */
module Purchases {
  import opened Placement
  import opened Catalogue
  import opened LedgerState
  import opened Fleet
  import opened Floors

  /** What a target's share leaves once its own tiers' floors are kept. */
  function ShareAfter(cfg: Config, leases: seq<Lease>, target: string, returned: Size, slots: seq<Lease>): Size
  {
    var room := ShareRoom(cfg, leases, target, returned);
    if target !in cfg.shares then room
    else
      var held := Used(slots, InTiers(LabelsOf(cfg, target)));
      Size(room.vcpu - held.vcpu, room.memory - held.memory)
  }

  /** The other tiers' floors, held on the fleet as it stands. */
  function FloorsFor(cfg: Config, db: Ledger, t: Tier): Held
    requires ValidConfig(cfg)
  {
    ReserveFloors(cfg, db, t.name, FreeRows(cfg, Placeable(db.nodes), db.leases), Size(0, 0))
  }

  /** Everything a purchase of a tier is placed against. */
  datatype Offer = Offer(plan: Plan, order: seq<Host>, room: Room)

  function OfferTo(cfg: Config, db: Ledger, t: Tier): (o: Offer)
    requires ValidConfig(cfg)
    ensures o.plan == PlanFor(cfg, Placeable(db.nodes), t) && o.order == OrderFor(cfg, Placeable(db.nodes), t)
    ensures ValidTier(t) ==> PositiveCosts(o.plan)
  {
    var rows := Placeable(db.nodes);
    var held := FloorsFor(cfg, db, t);
    var used, floors := Used(db.leases, Everywhere), Used(held.slots, Everywhere);
    var share := ShareAfter(cfg, db.leases, t.target, Size(0, 0), held.slots);
    Offer(PlanFor(cfg, rows, t), OrderFor(cfg, rows, t),
          Room(held.free,
               Min(Max(cfg.maxVCPU - used.vcpu - floors.vcpu, 0), Max(share.vcpu, 0)),
               Min(Max(cfg.maxMemory - used.memory - floors.memory, 0), Max(share.memory, 0))))
  }

  /** How many an offer holds, placed one at a time. */
  function Total(o: Offer): nat
    requires PositiveCosts(o.plan)
  {
    |Fill(o.plan, o.order, o.room).hosts|
  }

  /** How many more of a tier fit right now. */
  function Headroom(cfg: Config, db: Ledger, t: Tier): nat
    requires ValidConfig(cfg) && ValidTier(t)
  {
    var n := Total(OfferTo(cfg, db, t));
    if t.maxConcurrent > 0 then Max(Min(n, t.maxConcurrent - Used(db.leases, InTiers({t.name})).leases), 0) else n
  }

  // ---- Hosts held for other tiers ----

  /** Held hosts and who holds each. */
  type Holds = map<Host, string>

  /** What the owner of a held host needs there, zero where the host is not held by a known tier. */
  function Kept(cfg: Config, holds: Holds, h: Host): Size
  {
    if h in holds && TierNamed(cfg.tiers, holds[h]).Some?
    then var t := TierNamed(cfg.tiers, holds[h]).value; Size(t.vcpu, t.memory)
    else Size(0, 0)
  }

  predicate KnownHold(cfg: Config, holds: Holds, h: Host)
  {
    h in holds && TierNamed(cfg.tiers, holds[h]).Some?
  }

  predicate UnknownHold(cfg: Config, holds: Holds, h: Host)
  {
    h in holds && TierNamed(cfg.tiers, holds[h]).None?
  }

  /** One dimension of room with what the owners of some held hosts need taken off. */
  function KeepRoom(m: map<Host, int>, kept: map<Host, int>): map<Host, int>
  {
    map h | h in m.Keys + kept.Keys :: At(m, h) - At(kept, h)
  }

  function KeptVCPU(cfg: Config, holds: Holds, hosts: set<Host>): map<Host, int>
  {
    map h | h in hosts && KnownHold(cfg, holds, h) :: Kept(cfg, holds, h).vcpu
  }

  function KeptMemory(cfg: Config, holds: Holds, hosts: set<Host>): map<Host, int>
  {
    map h | h in hosts && KnownHold(cfg, holds, h) :: Kept(cfg, holds, h).memory
  }

  function NotOffered(cfg: Config, holds: Holds, hosts: set<Host>): set<Host>
  {
    set h | h in hosts && UnknownHold(cfg, holds, h)
  }

  /** An offer with some of the held hosts already left to their owners. */
  function KeepSome(cfg: Config, o: Offer, holds: Holds, hosts: set<Host>): Offer
  {
    Offer(o.plan.(cost := o.plan.cost - NotOffered(cfg, holds, hosts)), o.order,
          o.room.(free := Free(KeepRoom(o.room.free.vcpu, KeptVCPU(cfg, holds, hosts)),
                               KeepRoom(o.room.free.memory, KeptMemory(cfg, holds, hosts)),
                               o.room.free.macOS)))
  }

  /** Leaves a held host's room to its owner; one held by a tier nobody knows is not offered at all. */
  function KeepFor(cfg: Config, o: Offer, holds: Holds): Offer
  {
    KeepSome(cfg, o, holds, holds.Keys)
  }

  lemma KeepForAt(cfg: Config, o: Offer, holds: Holds, h: Host)
    ensures At(KeepFor(cfg, o, holds).room.free.vcpu, h) == At(o.room.free.vcpu, h) - Kept(cfg, holds, h).vcpu
    ensures At(KeepFor(cfg, o, holds).room.free.memory, h) == At(o.room.free.memory, h) - Kept(cfg, holds, h).memory
    ensures At(KeepFor(cfg, o, holds).room.free.macOS, h) == At(o.room.free.macOS, h)
  {
  }

  /** The offer a purchase uses, how many it may take, and whether held hosts keep their owners' room. */
  datatype Terms = Terms(offer: Offer, limit: int, keeping: bool)

  /** A tier below its floor with room nowhere else uses held hosts, up to its floor. */
  function Avoiding(cfg: Config, db: Ledger, t: Tier, o: Offer, holds: Holds, want: int): (terms: Terms)
    requires PositiveCosts(o.plan)
    ensures PositiveCosts(terms.offer.plan)
  {
    if |holds| == 0 then Terms(o, want, false)
    else
      var open := KeepFor(cfg, o, holds);
      var short := Missing(cfg, db, t);
      if short > 0 && Total(open) == 0 then Terms(o, Min(want, short), false) else Terms(open, want, true)
  }

  /** How many of a tier an escrow could grant now, off the room held against it. */
  function RoomOf(cfg: Config, db: Ledger, t: Tier, holds: Holds): nat
    requires ValidConfig(cfg) && ValidTier(t)
  {
    var room := Headroom(cfg, db, t);
    if room > 0 && |holds| > 0 then Total(Avoiding(cfg, db, t, OfferTo(cfg, db, t), holds, room).offer) else room
  }

  /** The held hosts whose owner fits there now. */
  function OwnersWithRoom(cfg: Config, db: Ledger, holds: Holds): set<Host>
    requires ValidConfig(cfg)
  {
    set h | h in holds && OwnerFits(cfg, db, holds, h)
  }

  predicate OwnerFits(cfg: Config, db: Ledger, holds: Holds, h: Host)
    requires ValidConfig(cfg) && h in holds
  {
    match TierNamed(cfg.tiers, holds[h])
    case None => false
    case Some(owner) => RoomFor(OfferTo(cfg, db, owner).plan, OfferTo(cfg, db, owner).room, h) > 0
  }

  // ---- One attempt to buy ----

  /** What a purchase must leave alone, with the tier names already resolved. */
  datatype Care = Care(guarded: seq<Tier>, kept: seq<Tier>, avoid: map<string, Holds>)

  function HoldsAgainst(care: Care, name: string): Holds
  {
    if name in care.avoid then care.avoid[name] else map[]
  }

  ghost predicate ValidCare(care: Care)
  {
    (forall t :: t in care.guarded ==> ValidTier(t)) && (forall t :: t in care.kept ==> ValidTier(t))
  }

  ghost predicate AllHaveRoom(cfg: Config, db: Ledger, tiers: seq<Tier>, care: Care)
    requires ValidConfig(cfg) && forall t :: t in tiers ==> ValidTier(t)
  {
    forall t :: t in tiers ==> RoomOf(cfg, db, t, HoldsAgainst(care, t.name)) >= 1
  }

  /** Every kept tier that fitted before still fits. */
  ghost predicate KeptStillFit(cfg: Config, before: Ledger, after: Ledger, care: Care)
    requires ValidConfig(cfg) && ValidCare(care)
  {
    forall t :: t in care.kept && RoomOf(cfg, before, t, HoldsAgainst(care, t.name)) > 0 ==>
      RoomOf(cfg, after, t, HoldsAgainst(care, t.name)) >= 1
  }

  /** What a purchase must leave: each guarded tier a lease, each kept tier that fitted its fit, and,
      where held hosts keep their owners' room, each owner that fitted its host. */
  ghost predicate LeavesWaiters(cfg: Config, before: Ledger, after: Ledger, t: Tier, care: Care, keeping: bool)
    requires ValidConfig(cfg) && ValidCare(care)
  {
    && AllHaveRoom(cfg, after, care.guarded, care)
    && KeptStillFit(cfg, before, after, care)
    && (keeping ==> OwnersWithRoom(cfg, before, HoldsAgainst(care, t.name)) <=
                    OwnersWithRoom(cfg, after, HoldsAgainst(care, t.name)))
  }

  datatype Attempt = Sealed | ShortNow | LeftShort | Bought(rows: seq<Lease>)

  function TermsFor(cfg: Config, db: Ledger, t: Tier, want: int, care: Care): Terms
    requires ValidConfig(cfg) && ValidTier(t)
  {
    Avoiding(cfg, db, t, OfferTo(cfg, db, t), HoldsAgainst(care, t.name), want)
  }

  /** The rows an attempt inserts before anything is read back. */
  function RowsFor(cfg: Config, db: Ledger, t: Tier, want: nat, care: Care, expiresAt: int): seq<Lease>
    requires ValidConfig(cfg) && ValidTier(t)
  {
    var terms := TermsFor(cfg, db, t, want, care);
    var take := Max(Min(terms.limit, Headroom(cfg, db, t)), 0);
    NewLeases(t, terms.offer.plan, Draw(terms.offer.plan, terms.offer.order, terms.offer.room, take).hosts, expiresAt)
  }

  function Inserted(db: Ledger, rows: seq<Lease>): Ledger
  {
    db.(leases := db.leases + rows)
  }

  /** Buying up to `want`: measured, inserted, read back, and rolled back if a waiter is left short. */
  ghost function Attempted(cfg: Config, db: Ledger, t: Tier, want: nat, care: Care, expiresAt: int): Attempt
    requires ValidConfig(cfg) && ValidTier(t) && ValidCare(care)
  {
    if want == 0 then Bought([])
    else if db.admission.sealed then Sealed
    else if !AllHaveRoom(cfg, db, care.guarded, care) then ShortNow
    else
      var terms := TermsFor(cfg, db, t, want, care);
      var rows := RowsFor(cfg, db, t, want, care, expiresAt);
      var after := Inserted(db, rows);
      if rows != [] && !LeavesWaiters(cfg, db, after, t, care, terms.keeping) then LeftShort else Bought(rows)
  }

  /** With nothing to protect, an open deployment grants exactly what headroom says, up to what is wanted. */
  lemma AttemptGrantsHeadroom(cfg: Config, db: Ledger, t: Tier, want: nat, expiresAt: int)
    requires ValidConfig(cfg) && ValidTier(t) && !db.admission.sealed
    ensures
      var a := Attempted(cfg, db, t, want, Care([], [], map[]), expiresAt);
      a.Bought? && |a.rows| == Min(want, Headroom(cfg, db, t))
  {
    hide Fill, Draw, OfferTo, Headroom, KeepFor, OwnersWithRoom, RoomOf;
    var o := OfferTo(cfg, db, t);
    HeadroomWithinTotal(cfg, db, t);
    DrawIsFillPrefix(o.plan, o.order, o.room, Max(Min(want, Headroom(cfg, db, t)), 0));
  }

  lemma HeadroomWithinTotal(cfg: Config, db: Ledger, t: Tier)
    requires ValidConfig(cfg) && ValidTier(t)
    ensures Headroom(cfg, db, t) <= Total(OfferTo(cfg, db, t))
    ensures t.maxConcurrent > 0 ==>
      Headroom(cfg, db, t) <= Max(t.maxConcurrent - Used(db.leases, InTiers({t.name})).leases, 0)
  {
    hide OfferTo, Total, Used;
  }
}

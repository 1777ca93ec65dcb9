/**
 Which hosts a tier may be placed on, what it is charged there and which come
 first, said of hosts and tiers alone; and what the rows a purchase writes say.
 */
module Candidates {
  import opened Placement
  import opened Catalogue
  import opened LedgerState
  import opened Fleet
  import opened Floors
  import opened Purchases
  import opened Capacity
  import opened Tightness
  import opened EscrowImpl
  import opened Safety

  /** A shape a backend sells holds the tier, on its architecture where the backend is EC2. */
  predicate Holds(n: Node, s: Shape, t: Tier)
  {
    s.vcpu >= t.vcpu && s.memory >= t.memory && (n.provider == EC2 && t.arch != "" ==> s.arch == t.arch)
  }

  predicate SellsShapes(n: Node) { n.provider == EC2 || n.provider == CodeBuild }

  /** A host is charged the request itself where it is the machine, and otherwise the first shape that holds it. */
  lemma CostMeans(n: Node, t: Tier)
    ensures
      var c := NodeCost(n, t);
      if !SellsShapes(n) then c == Some(Cost(t.vcpu, t.memory, ""))
      else if forall i :: 0 <= i < |n.shapes| ==> !Holds(n, n.shapes[i], t) then c.None?
      else exists i :: 0 <= i < |n.shapes| && Holds(n, n.shapes[i], t) && c == Some(Cost(n.shapes[i].vcpu, n.shapes[i].memory, n.shapes[i].kind)) &&
                       forall j :: 0 <= j < i ==> !Holds(n, n.shapes[j], t)
  {
    hide FirstShape;
    forall i | 0 <= i < |n.shapes| ensures Suits(n.provider, n.shapes[i], t) <==> Holds(n, n.shapes[i], t) {
    }
    if SellsShapes(n) && FirstShape(n.provider, n.shapes, t).Some? {
      var i :| 0 <= i < |n.shapes| && Suits(n.provider, n.shapes[i], t) &&
        FirstShape(n.provider, n.shapes, t).value == Cost(n.shapes[i].vcpu, n.shapes[i].memory, n.shapes[i].kind) &&
        forall j :: 0 <= j < i ==> !Suits(n.provider, n.shapes[j], t);
      assert Holds(n, n.shapes[i], t);
    }
  }

  /** The host speaks a wire new enough for everything the tier asks of it. */
  predicate SpeaksFor(n: Node, t: Tier)
  {
    && (t.needsCacheAware ==> n.wire >= 23) && (t.guestOS == Windows ==> n.wire >= 39)
    && (t.listsEgress ==> n.wire >= 40) && (t.namesTartVerified && n.provider == Tart ==> n.wire >= 41)
  }

  /** The host's policy permits the guest: no policy, one that lists none, or one that lists it. */
  predicate Permits(cfg: Config, h: Host, os: GuestOS)
  {
    h in cfg.policies && |cfg.policies[h].guestOS| > 0 ==> os in cfg.policies[h].guestOS
  }

  /** A tier may be placed on a host exactly when its pins name it, its backends include it, the host permits the guest,
      runs the architecture, sells a shape that holds it where it sells shapes, and speaks for it. */
  lemma EligibleExactlyWhen(cfg: Config, n: Node, t: Tier)
    ensures Eligible(cfg, n, t) <==>
      && (t.node == "" || t.node == n.name) && (t.site == "" || t.site == n.site)
      && n.provider in t.providers && Permits(cfg, n.name, t.guestOS)
      && (t.arch == "" || t.arch in n.architectures)
      && (SellsShapes(n) ==> exists i :: 0 <= i < |n.shapes| && Holds(n, n.shapes[i], t))
      && SpeaksFor(n, t)
  {
    hide NodeCost, Holds;
    CostMeans(n, t);
  }

  /** A host's macOS licences: two unless its policy says how many, and none where the policy forbids the guest. */
  lemma LicencesMean(cfg: Config, h: Host)
    ensures MacOSLimit(cfg, h) ==
      if !Permits(cfg, h, MacOS) then 0
      else if h in cfg.policies && cfg.policies[h].macOSLimit.Some? then cfg.policies[h].macOSLimit.value
      else 2
  {
  }

  // ---- The plan ----

  lemma {:induction false} FirstIndexIs(providers: seq<Provider>, p: Provider)
    requires p in providers
    ensures
      var i := FirstIndex(providers, p);
      i < |providers| && providers[i] == p && forall j :: 0 <= j < i ==> providers[j] != p
  {
    if providers[0] != p {
      assert providers == [providers[0]] + providers[1..];
      FirstIndexIs(providers[1..], p);
    }
  }

  lemma {:induction false} RankOf(nodes: seq<Node>, t: Tier, n: Node)
    requires Distinct(NamesOf(nodes)) && n in nodes
    ensures n.name in RankMap(nodes, t) && RankMap(nodes, t)[n.name] == Index(t.providers, n.provider)
    ensures n.name in SizeMap(nodes) && SizeMap(nodes)[n.name] == Size(n.vcpu, n.memory)
  {
    hide Index;
    var front, last := nodes[..|nodes| - 1], nodes[|nodes| - 1];
    assert nodes == front + [last];
    if n != last {
      assert n in front;
      var j :| 0 <= j < |front| && front[j] == n;
      assert NamesOf(nodes)[j] != NamesOf(nodes)[|nodes| - 1];
      assert NamesOf(front) == NamesOf(nodes)[..|nodes| - 1];
      RankOf(front, t, n);
    }
  }

  /** What a tier's plan says of a host it may be placed on: its charge, the place of its backend in the tier's own list
      (the first there), its size where hosts are fitted tightly, and the deployment's policy. */
  lemma PlanMeans(cfg: Config, nodes: seq<Node>, t: Tier, n: Node)
    requires ValidNodes(nodes) && n in nodes && n.live && !n.drained && Eligible(cfg, n, t)
    ensures
      var p := PlanFor(cfg, Placeable(nodes), t);
      && n.name in p.cost && Some(p.cost[n.name]) == NodeCost(n, t)
      && 0 <= At(p.rank, n.name) < |t.providers| && t.providers[At(p.rank, n.name)] == n.provider
      && (forall j :: 0 <= j < At(p.rank, n.name) ==> t.providers[j] != n.provider)
      && p.policy == cfg.placement && (p.macOS <==> t.guestOS == MacOS)
      && (cfg.placement == Tightest ==> n.name in p.sizes && p.sizes[n.name] == Size(n.vcpu, n.memory))
  {
    hide NodeCost, CostMap, RankMap, SizeMap, EligibleFrom, Placeable;
    var rows := Placeable(nodes);
    OfferedAtCost(cfg, nodes, t, n);
    PlaceableDistinct(nodes);
    EligibleDistinct(cfg, rows, t);
    RankOf(EligibleFrom(cfg, rows, t), t, n);
    FirstIndexIs(t.providers, n.provider);
  }

  /** And a plan charges only hosts in contact, taking work and eligible. */
  lemma PlannedHost(cfg: Config, nodes: seq<Node>, t: Tier, h: Host) returns (n: Node)
    requires h in PlanFor(cfg, Placeable(nodes), t).cost
    ensures n in nodes && n.live && !n.drained && n.name == h && Eligible(cfg, n, t) && NodeCost(n, t) == Some(PlanFor(cfg, Placeable(nodes), t).cost[h])
  {
    hide Eligible, EligibleFrom, Placeable, NodeCost;
    n :| n in EligibleFrom(cfg, Placeable(nodes), t) && n.name == h && NodeCost(n, t) == Some(PlanFor(cfg, Placeable(nodes), t).cost[h]);
  }

  // ---- The rows a purchase writes ----

  /** A new reservation of a tier on a host: reserved there and bound nowhere, charged as the host charges, remembering
      what was asked for, at its first epoch, lapsing a lease's time from now. */
  predicate IsReservation(cfg: Config, l: Lease, t: Tier, n: Node, now: int)
  {
    && l.tier == t.name && l.target == n.name && l.node == "" && l.phase == LedgerState.Capacity
    && NodeCost(n, t) == Some(Cost(l.vcpu, l.memory, l.instanceType))
    && l.requestedVCPU == t.vcpu && l.requestedMemory == t.memory && l.guestOS == t.guestOS && (l.macOSSlot <==> t.guestOS == MacOS)
    && l.providers == t.providers && l.provider.None? && l.epoch == 0 && l.expiresAt == now + cfg.leaseTTL
    && !l.forceRelease && l.failureReason == "" && l.run == 0 && l.request == 0
  }

  ghost predicate Reservation(cfg: Config, db: Ledger, l: Lease, t: Tier, now: int)
  {
    exists n :: n in db.nodes && n.live && !n.drained && Eligible(cfg, n, t) && IsReservation(cfg, l, t, n, now)
  }

  lemma OfferedHosts(cfg: Config, db: Ledger, t: Tier, want: int, care: Care, h: Host)
    requires ValidConfig(cfg) && ValidTier(t) && h in TermsFor(cfg, db, t, want, care).offer.plan.cost
    ensures h in PlanFor(cfg, Placeable(db.nodes), t).cost
    ensures TermsFor(cfg, db, t, want, care).offer.plan.cost[h] == PlanFor(cfg, Placeable(db.nodes), t).cost[h]
  {
    hide OfferTo, TermsFor, OfferedFrom;
    TermsAreOffered(cfg, db, t, want, care);
    OfferedAt(cfg, db, t, TermsFor(cfg, db, t, want, care).offer, h);
  }

  lemma RowsAreReservations(cfg: Config, db: Ledger, t: Tier, want: nat, care: Care, now: int)
    requires ValidConfig(cfg) && ValidTier(t)
    ensures forall l :: l in RowsFor(cfg, db, t, want, care, now + cfg.leaseTTL) ==> Reservation(cfg, db, l, t, now)
  {
    hide TermsFor, Headroom, Draw, Placeable, PlanFor, Eligible, NodeCost;
    var terms, rows := TermsFor(cfg, db, t, want, care), RowsFor(cfg, db, t, want, care, now + cfg.leaseTTL);
    forall l | l in rows ensures Reservation(cfg, db, l, t, now) {
      var i :| 0 <= i < |rows| && rows[i] == l;
      OfferedHosts(cfg, db, t, want, care, l.target);
      var n := PlannedHost(cfg, db.nodes, t, l.target);
      assert IsReservation(cfg, l, t, n, now);
    }
  }

  /** A purchase leaves every row it found as it was, and each row it adds is a reservation of the tier bought, on a host
      in contact, taking work and eligible for it. */
  lemma PurchaseWritesReservations(cfg: Config, db: Ledger, tier: string, want: nat, purchase: Purchase, now: int)
    requires ValidConfig(cfg)
    ensures
      var after := Purchased(cfg, db, tier, want, purchase, now);
      && |db.leases| <= |after.leases| <= |db.leases| + want && after == db.(leases := db.leases + after.leases[|db.leases|..])
      && (forall i :: |db.leases| <= i < |after.leases| ==>
            TierNamed(cfg.tiers, tier).Some? && Reservation(cfg, db, after.leases[i], TierNamed(cfg.tiers, tier).value, now))
  {
    hide AllHaveRoom, LeavesWaiters, RowsFor, TermsFor, Resolved, Reservation;
    var after := Purchased(cfg, db, tier, want, purchase, now);
    assert db.leases + [] == db.leases;
    if after != db {
      var t, care := TierNamed(cfg.tiers, tier).value, CareOf(cfg, purchase, tier);
      var rows := RowsFor(cfg, db, t, want, care, Expiry(cfg, now));
      RowsAreReservations(cfg, db, t, want, care, now);
      RowsUpTo(cfg, db, t, want, care, Expiry(cfg, now));
      assert after.leases[|db.leases|..] == rows;
      forall i | |db.leases| <= i < |after.leases| ensures Reservation(cfg, db, after.leases[i], t, now) {
        assert after.leases[i] == rows[i - |db.leases|];
      }
    } else {
      assert after.leases[|db.leases|..] == [];
    }
  }

  lemma RowsUpTo(cfg: Config, db: Ledger, t: Tier, want: nat, care: Care, expiresAt: int)
    requires ValidConfig(cfg) && ValidTier(t)
    ensures |RowsFor(cfg, db, t, want, care, expiresAt)| <= want
  {
    hide OfferTo, KeepFor, Total, Missing, Draw, Headroom;
  }
}

/** Nothing is sold twice, over every run in which no host comes back smaller than what it holds. */
module Safety {
  import opened Placement
  import opened Catalogue
  import opened LedgerState
  import opened Floors
  import opened Purchases
  import opened Capacity
  import opened Tightness
  import opened EscrowImpl
  import opened Resizing
  import opened Leases
  import opened Lifecycle
  import opened Barriers
  import opened Runs

  // ---- A row that costs no more ----

  /** The same lease on the same host, charged no more, and open only if it was. */
  predicate NoDearer(a: Lease, b: Lease)
  {
    && a.tier == b.tier && Holder(a) == Holder(b) && a.macOSSlot == b.macOSSlot
    && (Open(b) ==> Open(a)) && b.vcpu <= a.vcpu && b.memory <= a.memory
  }

  lemma CheaperSum(leases: seq<Lease>, id: nat, b: Lease, q: Query)
    requires id < |leases| && Charged(leases[id]) && NoDearer(leases[id], b)
    ensures
      var was, now := Used(leases, q), Used(leases[id := b], q);
      now.vcpu <= was.vcpu && now.memory <= was.memory && now.macOS <= was.macOS && now.leases <= was.leases
  {
    hide Used;
    UsedUpdate(leases, id, b, q);
  }

  lemma CheaperKeepsLimits(cfg: Config, db: Ledger, id: nat, b: Lease)
    requires WithinLimits(cfg, db) && id < |db.leases| && NoDearer(db.leases[id], b) && SoundRow(cfg, b)
    ensures WithinLimits(cfg, db.(leases := db.leases[id := b]))
  {
    hide Used, NoDearer, SoundRow, MacOSLimit, LabelsOf, AllLabels;
    var leases := db.leases[id := b];
    assert Charged(db.leases[id]) by { SoundIsCharged(cfg, db.leases[id]); }
    forall n | n in db.nodes ensures FitsHost(cfg, n, leases) {
      CheaperSum(db.leases, id, b, OnHost(n.name));
    }
    forall t | t in cfg.tiers ensures FitsCap(t, leases) {
      CheaperSum(db.leases, id, b, InTiers({t.name}));
    }
    forall target | target in cfg.shares ensures FitsShare(cfg, target, leases) {
      CheaperSum(db.leases, id, b, InTiers(LabelsOf(cfg, target)));
      CheaperSum(db.leases, id, b, OutsideTiers(AllLabels(cfg)));
    }
    CheaperSum(db.leases, id, b, Everywhere);
  }

  lemma SoundIsCharged(cfg: Config, l: Lease)
    requires SoundRow(cfg, l)
    ensures Charged(l)
  {
  }

  /** A lawful effect moves a row without moving its charge up. */
  lemma LawfulIsNoDearer(cfg: Config, a: Lease, b: Lease)
    requires SoundRow(cfg, a) && LawfulRow(a, b) && SameCharge(a, b)
    ensures SoundRow(cfg, b) && NoDearer(a, b)
  {
  }

  lemma SettleKeepsLimits(cfg: Config, db: Ledger, id: nat, e: Effect)
    requires WithinLimits(cfg, db)
    requires if id < |db.leases| then LawfulEffect(db.leases[id], e) else e.Refuse? || e.Keep?
    ensures WithinLimits(cfg, Settle(db, id, e).db)
  {
    hide LawfulRow, SoundRow, NoDearer, SameCharge, FitsHost, FitsCap, FitsShare, FitsDeployment;
    if id < |db.leases| && (e.Write? || e.Shut? || e.Amend?) {
      assert SoundRow(cfg, db.leases[id]);
      LawfulIsNoDearer(cfg, db.leases[id], e.lease);
      CheaperKeepsLimits(cfg, db, id, e.lease);
    }
  }

  lemma {:induction false} ReclaimKeepsLimits(cfg: Config, db: Ledger, ids: seq<nat>)
    requires WithinLimits(cfg, db) && Books(db) && AreRows(db, ids) && Distinct(ids)
    requires forall i :: 0 <= i < |ids| ==> Open(db.leases[ids[i]]) && db.leases[ids[i]].phase != Quarantine
    ensures WithinLimits(cfg, ReclaimAll(db, ids))
  {
    hide Books, LawfulEffect, ReclaimEffect, Settle, WithinLimits;
    if ids != [] {
      var front, last := ids[..|ids| - 1], ids[|ids| - 1];
      assert ids == front + [last] && last !in front;
      ReclaimKeepsLimits(cfg, db, front);
      ReclaimAllRows(db, front, last);
      var before := ReclaimAll(db, front);
      BooksRow(db, last);
      ReclaimIsLawful(before.leases[last]);
      SettleKeepsLimits(cfg, before, last, ReclaimEffect(before.leases[last]));
    }
  }

  lemma {:induction false} AbsentKeepsLimits(cfg: Config, db: Ledger, node: Host, running: seq<nat>, completed: set<nat>, now: int, k: nat)
    requires WithinLimits(cfg, db) && Books(db) && k <= |db.leases|
    ensures WithinLimits(cfg, AbsentUpTo(db, node, running, completed, now, k))
  {
    hide Books, LawfulEffect, AbsentEffect, Settle, WithinLimits;
    if k > 0 {
      AbsentKeepsLimits(cfg, db, node, running, completed, now, k - 1);
      AbsentKeepsBooks(db, node, running, completed, now, k - 1);
      var before := AbsentUpTo(db, node, running, completed, now, k - 1);
      BooksRow(before, k - 1);
      if Settleable(before.leases[k - 1], node, now) && k - 1 !in running {
        AbsentIsLawful(before.leases[k - 1], k - 1 in completed);
        SettleKeepsLimits(cfg, before, k - 1, AbsentEffect(before.leases[k - 1], k - 1 in completed));
      }
    }
  }

  // ---- Buying ----

  /** The offer an attempt draws on is the measured one, perhaps with held hosts' room kept. */
  lemma TermsAreOffered(cfg: Config, db: Ledger, t: Tier, want: int, care: Care)
    requires ValidConfig(cfg) && ValidTier(t)
    ensures OfferedFrom(cfg, db, t, TermsFor(cfg, db, t, want, care).offer)
    ensures PositiveCosts(TermsFor(cfg, db, t, want, care).offer.plan)
  {
    hide OfferTo, KeepFor, Total, Missing;
  }

  lemma RowsAreDrawn(cfg: Config, db: Ledger, t: Tier, want: nat, care: Care, expiresAt: int)
    requires ValidConfig(cfg) && ValidTier(t)
    ensures
      var terms := TermsFor(cfg, db, t, want, care);
      RowsFor(cfg, db, t, want, care, expiresAt) ==
        Drawn(t, terms.offer, Max(Min(terms.limit, Headroom(cfg, db, t)), 0), expiresAt)
  {
    hide TermsFor, Headroom, Draw;
  }

  lemma RowsKeepLimits(cfg: Config, db: Ledger, t: Tier, want: nat, care: Care, expiresAt: int)
    requires ValidConfig(cfg) && t in cfg.tiers && WithinLimits(cfg, db)
    ensures WithinLimits(cfg, Inserted(db, RowsFor(cfg, db, t, want, care, expiresAt)))
  {
    hide WithinLimits, RowsFor, TermsFor, Headroom, Drawn, OfferedFrom, Inserted;
    var terms := TermsFor(cfg, db, t, want, care);
    TermsAreOffered(cfg, db, t, want, care);
    RowsAreDrawn(cfg, db, t, want, care, expiresAt);
    PurchaseKeepsLimits(cfg, db, t, terms.offer, Max(Min(terms.limit, Headroom(cfg, db, t)), 0), expiresAt);
  }

  /** A committed purchase, whatever was protected or held, oversells nothing. */
  lemma BuyKeepsLimits(cfg: Config, db: Ledger, tier: string, want: nat, purchase: Purchase, now: int)
    requires ValidConfig(cfg) && WithinLimits(cfg, db)
    ensures WithinLimits(cfg, Purchased(cfg, db, tier, want, purchase, now))
  {
    hide WithinLimits, AllHaveRoom, LeavesWaiters, RowsFor, TermsFor, Resolved;
    match TierNamed(cfg.tiers, tier)
    case None =>
    case Some(t) =>
      RowsKeepLimits(cfg, db, t, want, CareOf(cfg, purchase, tier), Expiry(cfg, now));
      assert Inserted(db, []) == db;
  }

  lemma RowsKeepFloors(cfg: Config, db: Ledger, t: Tier, want: nat, care: Care, expiresAt: int)
    requires ValidConfig(cfg) && t in cfg.tiers && ValidNodes(db.nodes) && RowsFor(cfg, db, t, want, care, expiresAt) != []
    ensures FloorsPacked(cfg, db, t, FloorsFor(cfg, db, t).slots, RowsFor(cfg, db, t, want, care, expiresAt))
  {
    hide FloorsPacked, RowsFor, TermsFor, Headroom, Drawn, OfferedFrom;
    var terms := TermsFor(cfg, db, t, want, care);
    TermsAreOffered(cfg, db, t, want, care);
    RowsAreDrawn(cfg, db, t, want, care, expiresAt);
    PurchaseKeepsFloors(cfg, db, t, terms.offer, Max(Min(terms.limit, Headroom(cfg, db, t)), 0), expiresAt);
  }

  /** What a purchase of a tier leaves of every other tier's floor: slots that keep each floor as far as it can be
      kept, packed with all leases and the purchase on the hosts they touch and in the deployment. */
  ghost predicate FloorsKept(cfg: Config, db: Ledger, t: Tier, rows: seq<Lease>)
  {
    exists slots :: FloorsMet(cfg, db, t.name, slots) && FloorsPacked(cfg, db, t, slots, rows)
  }

  /** Whatever a committed purchase inserted, and whatever was protected or held, it kept every other floor. */
  lemma BuyKeepsFloors(cfg: Config, db: Ledger, tier: string, want: nat, purchase: Purchase, now: int)
    requires ValidConfig(cfg) && ValidNodes(db.nodes)
    requires |Purchased(cfg, db, tier, want, purchase, now).leases| > |db.leases|
    ensures TierNamed(cfg.tiers, tier).Some?
    ensures FloorsKept(cfg, db, TierNamed(cfg.tiers, tier).value, Purchased(cfg, db, tier, want, purchase, now).leases[|db.leases|..])
  {
    hide FloorsPacked, FloorsMet, FloorsFor, AllHaveRoom, LeavesWaiters, RowsFor, TermsFor, Resolved;
    var t, care := TierNamed(cfg.tiers, tier).value, CareOf(cfg, purchase, tier);
    var rows := RowsFor(cfg, db, t, want, care, Expiry(cfg, now));
    assert (db.leases + rows)[|db.leases|..] == rows;
    RowsKeepFloors(cfg, db, t, want, care, Expiry(cfg, now));
    FloorsAreMet(cfg, db, t);
  }

  /** With nothing to protect, an open deployment sells a tier all that is wanted, or up to its cap, or until no host
      it may use could take one more beside all leases, every other floor and what was sold. */
  lemma UnprotectedBuySellsAllThereIs(cfg: Config, db: Ledger, t: Tier, want: nat, now: int)
    requires ValidConfig(cfg) && t in cfg.tiers && ValidNodes(db.nodes) && !db.admission.sealed
    ensures
      var after := Purchased(cfg, db, t.name, want, Purchase([], [], map[]), now).leases;
      && |db.leases| <= |after| <= |db.leases| + want
      && (|after| == |db.leases| + want ||
          (t.maxConcurrent > 0 && OpenLeases(db, t.name) + |after| - |db.leases| >= t.maxConcurrent) ||
          exists slots :: FloorsMet(cfg, db, t.name, slots) && NothingMoreFits(cfg, db, t, slots + after[|db.leases|..]))
  {
    hide FloorsMet, NothingMoreFits, OpenLeases, FloorsFor, Headroom, OfferTo, Drawn, RowsFor, Attempted, CareOf, TierNamed;
    TierNamedUnique(cfg, t);
    UnprotectedEscrowGrantsHeadroom(cfg, db, t, want, now);
    HeadroomIsAllThereIs(cfg, db, t, Expiry(cfg, now));
    FloorsAreMet(cfg, db, t);
    if want > Headroom(cfg, db, t) {
      UnprotectedRows(cfg, db, t, want, now);
    }
  }

  lemma UnprotectedRows(cfg: Config, db: Ledger, t: Tier, want: nat, now: int)
    requires ValidConfig(cfg) && TierNamed(cfg.tiers, t.name) == Some(t) && ValidTier(t) && !db.admission.sealed && want > Headroom(cfg, db, t)
    ensures PositiveCosts(OfferTo(cfg, db, t).plan)
    ensures Purchased(cfg, db, t.name, want, Purchase([], [], map[]), now).leases[|db.leases|..] ==
      Drawn(t, OfferTo(cfg, db, t), Headroom(cfg, db, t), Expiry(cfg, now))
  {
    hide Headroom, OfferTo, Attempted, CareOf, TierNamed, Drawn, TermsFor;
    var x, rows := Expiry(cfg, now), RowsFor(cfg, db, t, want, Care([], [], map[]), Expiry(cfg, now));
    NoCare(cfg, t.name);
    AttemptUnprotected(cfg, db, t, want, x);
    RowsAreDrawn(cfg, db, t, want, Care([], [], map[]), x);
    NothingHeld(cfg, db, t, want);
    assert (db.leases + rows)[|db.leases|..] == rows;
  }

  // ---- Hosts ----

  /** The same hosts, each as large as it was. */
  predicate SameSizes(a: seq<Node>, b: seq<Node>)
  {
    |a| == |b| && forall i :: 0 <= i < |a| ==> a[i].name == b[i].name && a[i].vcpu == b[i].vcpu && a[i].memory == b[i].memory
  }

  lemma SameSizesKeepLimits(cfg: Config, a: Ledger, b: Ledger)
    requires WithinLimits(cfg, a) && a.leases == b.leases && SameSizes(a.nodes, b.nodes)
    ensures WithinLimits(cfg, b)
  {
    hide FitsCap, FitsShare, FitsDeployment, SoundRow;
    assert NamesOf(a.nodes) == NamesOf(b.nodes);
    forall n | n in b.nodes ensures FitsHost(cfg, n, b.leases) {
      var i :| 0 <= i < |b.nodes| && b.nodes[i] == n;
      assert a.nodes[i] in a.nodes;
    }
  }

  /** A registration large enough for what its host is already charged. */
  predicate Accommodates(db: Ledger, e: Event)
  {
    e.Register? ==>
      var u := Used(db.leases, OnHost(e.registration.name));
      u.vcpu <= e.registration.vcpu && u.memory <= e.registration.memory
  }

  lemma RegisteredNames(db: Ledger, r: Registration)
    requires ValidNodes(db.nodes) && r.name != ""
    ensures ValidNodes(Registered(db, r).nodes)
    ensures forall n :: n in Registered(db, r).nodes ==> n in db.nodes || (n.name == r.name && n.vcpu == r.vcpu && n.memory == r.memory)
    ensures exists n :: n in Registered(db, r).nodes && n.name == r.name && n.vcpu == r.vcpu && n.memory == r.memory
  {
    var i := NodeIndex(db.nodes, r.name);
    var after := Registered(db, r).nodes;
    if i < |db.nodes| {
      assert NamesOf(after) == NamesOf(db.nodes);
      assert after[i] in after;
    } else {
      assert NamesOf(after) == NamesOf(db.nodes) + [r.name];
      assert r.name !in NamesOf(db.nodes);
      assert after[|db.nodes|] in after;
    }
  }

  /** A registration keeps every limit exactly when it is large enough for what the host holds. */
  lemma RegistrationKeepsLimits(cfg: Config, db: Ledger, r: Registration)
    requires WithinLimits(cfg, db) && r.name != ""
    requires Used(db.leases, OnHost(r.name)).macOS <= Max(MacOSLimit(cfg, r.name), 0)
    ensures Accommodates(db, Register(r)) <==> WithinLimits(cfg, Registered(db, r))
  {
    hide FitsCap, FitsShare, FitsDeployment, SoundRow, MacOSLimit, Used, Registered;
    RegisteredNames(db, r);
    RegisteredLeases(db, r);
  }

  lemma RegisteredLeases(db: Ledger, r: Registration)
    ensures Registered(db, r).leases == db.leases
  {
  }

  // ---- The books over every event ----

  lemma BooksUnmoved(a: Ledger, b: Ledger)
    requires Books(a) && LeasesUnmoved(a, b)
    ensures Books(b)
  {
    forall i | 0 <= i < |b.history| ensures EntryIsTrue(b, b.history[i]) {
      assert EntryIsTrue(a, a.history[i]);
    }
    forall id: nat | id < |b.leases| && !Open(b.leases[id]) ensures HasEntry(b, id) {
      assert HasEntry(a, id);
    }
  }

  /** A bought row is new: reserved, unbound, and aimed at a host in the table. */
  predicate FreshRow(db: Ledger, l: Lease)
  {
    && l.phase == Capacity && l.node == "" && l.epoch == 0 && l.failureReason == ""
    && NodeNamed(db.nodes, l.target).Some?
  }

  lemma BoughtRowsAreFresh(cfg: Config, db: Ledger, t: Tier, want: nat, care: Care, expiresAt: int)
    requires ValidConfig(cfg) && t in cfg.tiers && ValidNodes(db.nodes)
    ensures forall l :: l in RowsFor(cfg, db, t, want, care, expiresAt) ==> FreshRow(db, l)
  {
    hide TermsFor, Headroom, Draw, NodeNamed, OrderFor, Placeable, OfferTo;
    var terms := TermsFor(cfg, db, t, want, care);
    var take := Max(Min(terms.limit, Headroom(cfg, db, t)), 0);
    TermsAreOffered(cfg, db, t, want, care);
    var hosts := Draw(terms.offer.plan, terms.offer.order, terms.offer.room, take).hosts;
    var rows := RowsFor(cfg, db, t, want, care, expiresAt);
    OfferedAt(cfg, db, t, terms.offer, "");
    OrderIsSound(cfg, db.nodes, t);
    forall l | l in rows ensures FreshRow(db, l) {
      var i :| 0 <= i < |rows| && rows[i] == l;
      assert hosts[i] in hosts;
      var n :| n in Placeable(db.nodes) && n.name == hosts[i];
      NodeNamedUnique(db.nodes, n);
    }
  }

  /** A purchase either changes nothing or appends rows that are all new. */
  lemma PurchaseAppends(cfg: Config, db: Ledger, tier: string, want: nat, purchase: Purchase, now: int) returns (rows: seq<Lease>)
    requires ValidConfig(cfg) && ValidNodes(db.nodes)
    ensures Purchased(cfg, db, tier, want, purchase, now) == db.(leases := db.leases + rows)
    ensures forall l :: l in rows ==> FreshRow(db, l)
    ensures db.admission.sealed ==> rows == []
  {
    hide AllHaveRoom, LeavesWaiters, RowsFor, TermsFor, Resolved, FreshRow;
    rows := [];
    assert db.(leases := db.leases + []) == db;
    var after := Purchased(cfg, db, tier, want, purchase, now);
    if after != db {
      var t, care := TierNamed(cfg.tiers, tier).value, CareOf(cfg, purchase, tier);
      BoughtRowsAreFresh(cfg, db, t, want, care, Expiry(cfg, now));
      rows := RowsFor(cfg, db, t, want, care, Expiry(cfg, now));
    }
  }

  lemma ReshapeIsLawful(cfg: Config, db: Ledger, id: nat, epoch: int, kind: string, size: Size, protect: seq<string>)
    requires ValidConfig(cfg)
    ensures
      var after := Resized(cfg, db, id, epoch, kind, size, protect).db;
      after == db || (id < |db.leases| && Open(db.leases[id]) &&
        after == db.(leases := db.leases[id := WithShape(db.leases[id], kind, size)]))
  {
    hide ShapeFits, AllHaveRoom, ResizeRefusal, Judged;
  }

  lemma ReshapeKeepsBooks(db: Ledger, id: nat, kind: string, size: Size)
    requires Books(db) && id < |db.leases| && Open(db.leases[id])
    ensures Books(db.(leases := db.leases[id := WithShape(db.leases[id], kind, size)]))
  {
    hide ClosedIn;
    var b := WithShape(db.leases[id], kind, size);
    var after := db.(leases := db.leases[id := b]);
    forall tier ensures Releases(after.releases, tier) == ClosedIn(after.leases, tier) {
      ClosedInUpdate(db.leases, id, b, tier);
    }
    forall other: nat | other < |after.leases| && !Open(after.leases[other]) ensures HasEntry(after, other) {
      assert HasEntry(db, other);
    }
    forall i | 0 <= i < |after.history| ensures EntryIsTrue(after, after.history[i]) {
      assert EntryIsTrue(db, db.history[i]);
    }
  }

  /** Whatever happens, every closed lease is archived exactly once and counted once. */
  lemma StepKeepsBooks(cfg: Config, db: Ledger, t: Tick)
    requires ValidConfig(cfg) && ValidNodes(db.nodes) && Books(db)
    ensures Books(Apply(cfg, db, t))
  {
    hide Books, EffectOf, Purchased, Resized, ReclaimAll, AbsentUpTo, NodeNamed, ValidNodes, LawfulEffect, Settle;
    if !OnlyLeases(t.event) {
      FleetEventsFrame(cfg, db, t);
      BooksUnmoved(db, Apply(cfg, db, t));
    } else {
      match t.event
      case OnLease(id, call) =>
        if id < |db.leases| {
          BooksRow(db, id);
        }
        CallsAreLawful(cfg, db, id, call, t.now);
        SettleKeepsBooks(db, id, EffectOf(cfg, db, id, call, t.now));
      case Buy(tier, want, purchase) =>
        var rows := PurchaseAppends(cfg, db, tier, want, purchase, t.now);
        InsertKeepsBooks(db, rows);
      case Resize(id, epoch, kind, size, protect) =>
        ReshapeIsLawful(cfg, db, id, epoch, kind, size, protect);
        if Resized(cfg, db, id, epoch, kind, size, protect).db != db {
          ReshapeKeepsBooks(db, id, kind, size);
        }
      case Reap(ids) =>
        if ExpiredScan(db, t.now, ids) {
          ReclaimKeepsBooks(db, ids);
        }
      case Report(node, epoch, running, completed) =>
        ReportKeepsBooks(db, node, epoch, running, completed, t.now);
    }
  }

  lemma ReportKeepsBooks(db: Ledger, node: Host, epoch: int, running: seq<nat>, completed: set<nat>, now: int)
    requires Books(db)
    ensures Books(Reported(db, node, epoch, running, completed, now))
  {
    hide Books, AbsentUpTo, NodeNamed;
    var n := NodeNamed(db.nodes, node);
    if n.Some? && n.value.epoch == epoch {
      var told := db.(inventory := db.inventory[node := Inventory(n.value.epoch, |running|)]);
      BooksUnmoved(db, told);
      AbsentKeepsBooks(told, node, running, completed, now, |told.leases|);
    }
  }

  // ---- The rows over every event ----

  lemma UnchangedIsLawful(l: Lease)
    ensures LawfulRow(l, l)
  {
  }

  lemma SettledRow(db: Ledger, id: nat, e: Effect, other: nat)
    requires id < |db.leases| && other < |db.leases| && LawfulEffect(db.leases[id], e)
    ensures |Settle(db, id, e).db.leases| == |db.leases|
    ensures LawfulRow(db.leases[other], Settle(db, id, e).db.leases[other])
  {
    hide LawfulRow;
    UnchangedIsLawful(db.leases[other]);
  }

  lemma ReshapedIsLawful(l: Lease, kind: string, size: Size)
    requires Open(l)
    ensures LawfulRow(l, WithShape(l, kind, size))
  {
  }

  lemma ReportedRow(db: Ledger, node: Host, epoch: int, running: seq<nat>, completed: set<nat>, now: int, id: nat)
    requires Books(db) && id < |db.leases|
    ensures
      var after := Reported(db, node, epoch, running, completed, now).leases;
      |after| == |db.leases| && LawfulRow(db.leases[id], after[id])
  {
    hide LawfulRow, AbsentUpTo, NodeNamed, Settleable;
    UnchangedIsLawful(db.leases[id]);
    BooksRow(db, id);
    var n := NodeNamed(db.nodes, node);
    if n.Some? && n.value.epoch == epoch {
      var told := db.(inventory := db.inventory[node := Inventory(n.value.epoch, |running|)]);
      AbsentRows(told, node, running, completed, now, |told.leases|, id);
      if Settleable(db.leases[id], node, now) {
        SettleableIsQuarantined(db.leases[id], node, now);
        AbsentIsLawful(db.leases[id], id in completed);
      }
    }
  }

  lemma SettleableIsQuarantined(l: Lease, node: Host, now: int)
    requires Settleable(l, node, now)
    ensures l.phase == Quarantine
  {
  }

  /** No event drops a row or moves one unlawfully. */
  lemma StepMovesRowsLawfully(cfg: Config, db: Ledger, t: Tick, id: nat)
    requires ValidConfig(cfg) && ValidNodes(db.nodes) && Books(db) && id < |db.leases|
    ensures
      var after := Apply(cfg, db, t).leases;
      |db.leases| <= |after| && LawfulRow(db.leases[id], after[id])
  {
    hide Books, EffectOf, Purchased, Resized, ReclaimAll, Reported, NodeNamed, ValidNodes, LawfulRow, Settle, LawfulEffect;
    UnchangedIsLawful(db.leases[id]);
    BooksRow(db, id);
    if !OnlyLeases(t.event) {
      FleetEventsFrame(cfg, db, t);
    } else {
      match t.event
      case OnLease(i, call) =>
        if i < |db.leases| {
          BooksRow(db, i);
          CallsAreLawful(cfg, db, i, call, t.now);
          SettledRow(db, i, EffectOf(cfg, db, i, call, t.now), id);
        } else {
          NoRowNoChange(cfg, db, i, call, t.now);
        }
      case Buy(tier, want, purchase) =>
        var rows := PurchaseAppends(cfg, db, tier, want, purchase, t.now);
      case Resize(i, epoch, kind, size, protect) =>
        ReshapeIsLawful(cfg, db, i, epoch, kind, size, protect);
        if i < |db.leases| && Open(db.leases[i]) {
          ReshapedIsLawful(db.leases[i], kind, size);
        }
      case Reap(ids) =>
        ReapedRow(db, ids, t.now, id);
      case Report(node, epoch, running, completed) =>
        ReportedRow(db, node, epoch, running, completed, t.now, id);
    }
  }

  lemma NoRowNoChange(cfg: Config, db: Ledger, id: nat, call: Call, now: int)
    requires id >= |db.leases|
    ensures Called(cfg, db, id, call, now).db == db
  {
    hide EffectOn;
  }

  lemma ReapedRow(db: Ledger, ids: seq<nat>, now: int, id: nat)
    requires id < |db.leases| && ProvisionalIsFailed(db.leases[id])
    ensures
      var after := Reaped(db, ids, now).leases;
      && |after| == |db.leases| && LawfulRow(db.leases[id], after[id])
      && (HadCompute(db.leases[id].phase) || db.leases[id].phase == Quarantine ==> Open(after[id]))
  {
    hide LawfulRow, ReclaimAll;
    UnchangedIsLawful(db.leases[id]);
    if ExpiredScan(db, now, ids) {
      ReclaimAllRows(db, ids, id);
      if id in ids {
        ReclaimIsLawful(db.leases[id]);
      }
    }
  }

  // ---- Every lease has its host ----

  ghost predicate Homed(db: Ledger)
  {
    forall id: nat :: id < |db.leases| ==> HasHome(db, id)
  }

  predicate HasHome(db: Ledger, id: nat)
    requires id < |db.leases|
  {
    NodeNamed(db.nodes, db.leases[id].target).Some?
  }

  /** A host in the table stays in it; only its registering moves its epoch, and only a launch its dispatch. */
  lemma HostsStay(cfg: Config, db: Ledger, t: Tick, h: Host)
    requires ValidConfig(cfg) && NodeNamed(db.nodes, h).Some?
    ensures
      var was, now := NodeNamed(db.nodes, h).value, NodeNamed(Apply(cfg, db, t).nodes, h);
      && now.Some?
      && now.value.epoch == was.epoch + (if t.event.Register? && t.event.registration.name == h && h != "" then 1 else 0)
      && now.value.dispatch == was.dispatch + (if t.event == BumpDispatch(h) then 1 else 0)
  {
    hide Called, Purchased, Resized, Reaped, Reported, Requested, Dropped, Observed, OnNode, Registered, Forgotten, Decommissioned,
      NodeNamed, Sealing, Resuming;
    if OnlyLeases(t.event) {
      LeaseEventsFrame(cfg, db, t);
    } else {
      match t.event
      case Register(r) => RegisteredHost(db, r, h);
      case GiveUpOn(node, epoch) => OnNodeHost(db, node, (n: Node) => if n.epoch == epoch then n.(live := false) else n, h);
      case Withdraw(node, epoch, incarnation) =>
        OnNodeHost(db, node, (n: Node) => if n.epoch == epoch && n.incarnation == incarnation then n.(live := false) else n, h);
      case Drain(node, epoch, incarnation) =>
        OnNodeHost(db, node, (n: Node) => if n.epoch == epoch && n.incarnation == incarnation then n.(drained := true) else n, h);
      case ForgetEveryNode => ForgottenHost(db, h);
      case DecommissionNode(node, actor, force) => DecommissionedHost(db, node, actor, force, h);
      case BumpDispatch(node) => OnNodeHost(db, node, (n: Node) => n.(dispatch := n.dispatch + 1), h);
      case _ =>
        BarrierEventsNodes(cfg, db, t);
    }
  }

  lemma BarrierEventsNodes(cfg: Config, db: Ledger, t: Tick)
    requires ValidConfig(cfg) && !OnlyLeases(t.event) && !NodeEvents(t.event)
    ensures Apply(cfg, db, t).nodes == db.nodes
  {
    hide Called, Purchased, Resized, Reaped, Reported, Registered, OnNode, Forgotten, Decommissioned, Extended, Current;
  }

  lemma OnNodeHost(db: Ledger, g: Host, change: Node -> Node, h: Host)
    requires NodeNamed(db.nodes, h).Some? && forall n :: change(n).name == n.name
    ensures
      var was, now := NodeNamed(db.nodes, h).value, NodeNamed(OnNode(db, g, change).nodes, h);
      now == Some(if g == h then change(was) else was)
  {
    var i, j := NodeIndex(db.nodes, g), NodeIndex(db.nodes, h);
    var after := OnNode(db, g, change).nodes;
    if i < |db.nodes| {
      NodeIndexIs(after, h, j);
    }
  }

  lemma {:induction false} NodeIndexIs(nodes: seq<Node>, h: Host, i: nat)
    requires i < |nodes| && nodes[i].name == h && forall j :: 0 <= j < i ==> nodes[j].name != h
    ensures NodeIndex(nodes, h) == i
  {
  }

  lemma RegisteredHost(db: Ledger, r: Registration, h: Host)
    requires NodeNamed(db.nodes, h).Some?
    ensures
      var was, now := NodeNamed(db.nodes, h).value, NodeNamed(Registered(db, r).nodes, h);
      now == Some(if r.name == h then RowOf(r, was.epoch + 1, was.dispatch) else was)
  {
    hide RowOf, NodeIndex;
    var i, j := NodeIndex(db.nodes, r.name), NodeIndex(db.nodes, h);
    var after := Registered(db, r).nodes;
    RowKeepsName(r, if i < |db.nodes| then db.nodes[i].epoch + 1 else 1, if i < |db.nodes| then db.nodes[i].dispatch else 0);
    NodeIndexIs(after, h, j);
  }

  lemma RowKeepsName(r: Registration, epoch: nat, dispatch: nat)
    ensures RowOf(r, epoch, dispatch).name == r.name
  {
  }

  lemma ForgottenHost(db: Ledger, h: Host)
    requires NodeNamed(db.nodes, h).Some?
    ensures NodeNamed(Forgotten(db).nodes, h) == Some(NodeNamed(db.nodes, h).value.(live := false))
  {
    NodeIndexIs(Forgotten(db).nodes, h, NodeIndex(db.nodes, h));
  }

  lemma DecommissionedHost(db: Ledger, g: Host, actor: string, force: bool, h: Host)
    requires NodeNamed(db.nodes, h).Some?
    ensures
      var was, now := NodeNamed(db.nodes, h).value, NodeNamed(Decommissioned(db, g, actor, force).nodes, h);
      && now.Some? && now.value.epoch == was.epoch && now.value.dispatch == was.dispatch
  {
    hide Proved, Outstanding, NodeNamed;
    var proven := Proved(db, g);
    OnNodeHost(db, g, (m: Node) => m.(decommissioned := Some(Decommission(proven, actor)), drained := true, live := false), h);
  }

  lemma StepKeepsHomes(cfg: Config, db: Ledger, t: Tick)
    requires ValidConfig(cfg) && ValidNodes(db.nodes) && Books(db) && Homed(db)
    ensures Homed(Apply(cfg, db, t))
  {
    hide Books, Apply, NodeNamed, ValidNodes, LawfulRow;
    var after := Apply(cfg, db, t);
    forall id: nat | id < |after.leases| ensures HasHome(after, id) {
      var h := after.leases[id].target;
      if id < |db.leases| {
        StepMovesRowsLawfully(cfg, db, t, id);
        LawfulKeepsTarget(db.leases[id], after.leases[id]);
        assert HasHome(db, id);
      } else {
        NewRowHasHome(cfg, db, t, id);
      }
      HostsStay(cfg, db, t, h);
    }
  }

  lemma LawfulKeepsTarget(a: Lease, b: Lease)
    requires LawfulRow(a, b)
    ensures a.target == b.target
  {
  }

  /** Rows appear only by a purchase, and then open, unbound and aimed at a host in the table. */
  lemma NewRowHasHome(cfg: Config, db: Ledger, t: Tick, id: nat)
    requires ValidConfig(cfg) && ValidNodes(db.nodes) && Books(db)
    requires |db.leases| <= id < |Apply(cfg, db, t).leases|
    ensures t.event.Buy? && !db.admission.sealed && FreshRow(db, Apply(cfg, db, t).leases[id])
  {
    hide Books, Purchased, EffectOf, Resized, ReclaimAll, AbsentUpTo, NodeNamed, ValidNodes, FreshRow, Settle;
    if !OnlyLeases(t.event) {
      FleetEventsFrame(cfg, db, t);
    } else {
      match t.event
      case OnLease(i, call) => SettleAddsNoRow(db, i, EffectOf(cfg, db, i, call, t.now));
      case Buy(tier, want, purchase) =>
        var rows := PurchaseAppends(cfg, db, tier, want, purchase, t.now);
        assert Apply(cfg, db, t).leases[id] == rows[id - |db.leases|];
      case Resize(i, epoch, kind, size, protect) => ReshapeIsLawful(cfg, db, i, epoch, kind, size, protect);
      case _ =>
    }
  }

  lemma SettleAddsNoRow(db: Ledger, id: nat, e: Effect)
    ensures |Settle(db, id, e).db.leases| == |db.leases|
  {
  }

  // ---- The overcommit invariant over every run ----

  /** No host comes back smaller, and none with less than nothing. */
  predicate NeverSmaller(db: Ledger, e: Event)
  {
    e.Register? ==>
      var r := e.registration;
      match NodeNamed(db.nodes, r.name)
      case None => r.vcpu >= 0 && r.memory >= 0
      case Some(n) => n.vcpu <= r.vcpu && n.memory <= r.memory
  }

  lemma HostCharge(cfg: Config, db: Ledger, h: Host)
    requires WithinLimits(cfg, db) && Homed(db)
    ensures NodeNamed(db.nodes, h).None? ==> Used(db.leases, OnHost(h)) == NOTHING
  {
    hide Used, NodeNamed, FitsHost, FitsCap, FitsShare, FitsDeployment;
    if NodeNamed(db.nodes, h).None? {
      forall l | l in db.leases ensures !Matches(l, OnHost(h)) {
        var id :| 0 <= id < |db.leases| && db.leases[id] == l;
        assert HasHome(db, id) && SoundRow(cfg, l);
      }
      UsedNone(db.leases, OnHost(h));
    }
  }

  lemma RegisterKeepsLimits(cfg: Config, db: Ledger, r: Registration)
    requires WithinLimits(cfg, db) && Homed(db) && r.name != "" && NeverSmaller(db, Register(r))
    ensures WithinLimits(cfg, Registered(db, r))
  {
    hide Used, FitsCap, FitsShare, FitsDeployment, SoundRow, MacOSLimit, Homed, Registered, ValidNodes;
    HostCharge(cfg, db, r.name);
    var n := NodeNamed(db.nodes, r.name);
    if n.Some? {
      assert FitsHost(cfg, n.value, db.leases);
    }
    RegistrationKeepsLimits(cfg, db, r);
  }

  lemma NodeEventsKeepSizes(cfg: Config, db: Ledger, t: Tick)
    requires ValidConfig(cfg) && !OnlyLeases(t.event) && !t.event.Register?
    ensures SameSizes(db.nodes, Apply(cfg, db, t).nodes)
  {
    hide Called, Purchased, Resized, Reaped, Reported, Requested, Dropped, Observed, Registered, OnNode, Decommissioned, SameSizes;
    match t.event
    case GiveUpOn(node, epoch) => OnNodeSizes(db, node, (n: Node) => if n.epoch == epoch then n.(live := false) else n);
    case Withdraw(node, epoch, incarnation) =>
      OnNodeSizes(db, node, (n: Node) => if n.epoch == epoch && n.incarnation == incarnation then n.(live := false) else n);
    case Drain(node, epoch, incarnation) =>
      OnNodeSizes(db, node, (n: Node) => if n.epoch == epoch && n.incarnation == incarnation then n.(drained := true) else n);
    case ForgetEveryNode => ForgottenSizes(db);
    case DecommissionNode(node, actor, force) => DecommissionedSizes(db, node, actor, force);
    case BumpDispatch(node) => OnNodeSizes(db, node, (n: Node) => n.(dispatch := n.dispatch + 1));
    case _ =>
      BarrierEventsNodes(cfg, db, t);
      AllSameSizes(db.nodes);
  }

  lemma AllSameSizes(nodes: seq<Node>)
    ensures SameSizes(nodes, nodes)
  {
  }

  lemma ForgottenSizes(db: Ledger)
    ensures SameSizes(db.nodes, Forgotten(db).nodes)
  {
  }

  lemma OnNodeSizes(db: Ledger, g: Host, change: Node -> Node)
    requires forall n :: change(n).name == n.name && change(n).vcpu == n.vcpu && change(n).memory == n.memory
    ensures SameSizes(db.nodes, OnNode(db, g, change).nodes)
  {
  }

  lemma DecommissionedSizes(db: Ledger, g: Host, actor: string, force: bool)
    ensures SameSizes(db.nodes, Decommissioned(db, g, actor, force).nodes)
  {
    hide Proved, Outstanding, NodeNamed;
    var proven := Proved(db, g);
    OnNodeSizes(db, g, (m: Node) => m.(decommissioned := Some(Decommission(proven, actor)), drained := true, live := false));
    AllSameSizes(db.nodes);
  }

  lemma StepKeepsLimits(cfg: Config, db: Ledger, t: Tick)
    requires ValidConfig(cfg) && WithinLimits(cfg, db) && Books(db) && Homed(db) && NeverSmaller(db, t.event)
    ensures WithinLimits(cfg, Apply(cfg, db, t))
  {
    hide Books, Homed, NeverSmaller, EffectOf, Purchased, Resized, ReclaimAll, Reported, NodeNamed, LawfulEffect, Settle,
      WithinLimits, Registered, SameSizes;
    if !OnlyLeases(t.event) {
      if t.event.Register? {
        if t.event.registration.name != "" {
          RegisterKeepsLimits(cfg, db, t.event.registration);
        }
      } else {
        FleetEventsFrame(cfg, db, t);
        NodeEventsKeepSizes(cfg, db, t);
        SameSizesKeepLimits(cfg, db, Apply(cfg, db, t));
      }
    } else {
      match t.event
      case OnLease(id, call) =>
        if id < |db.leases| {
          BooksRow(db, id);
        }
        CallsAreLawful(cfg, db, id, call, t.now);
        SettleKeepsLimits(cfg, db, id, EffectOf(cfg, db, id, call, t.now));
      case Buy(tier, want, purchase) => BuyKeepsLimits(cfg, db, tier, want, purchase, t.now);
      case Resize(id, epoch, kind, size, protect) => ResizeKeepsLimits(cfg, db, id, epoch, kind, size, protect);
      case Reap(ids) =>
        if ExpiredScan(db, t.now, ids) {
          ReclaimKeepsLimits(cfg, db, ids);
        }
      case Report(node, epoch, running, completed) =>
        ReportKeepsLimits(cfg, db, node, epoch, running, completed, t.now);
    }
  }

  lemma ReportKeepsLimits(cfg: Config, db: Ledger, node: Host, epoch: int, running: seq<nat>, completed: set<nat>, now: int)
    requires WithinLimits(cfg, db) && Books(db)
    ensures WithinLimits(cfg, Reported(db, node, epoch, running, completed, now))
  {
    hide Books, AbsentUpTo, NodeNamed, FitsHost, FitsCap, FitsShare, FitsDeployment, SoundRow;
    var n := NodeNamed(db.nodes, node);
    if n.Some? && n.value.epoch == epoch {
      var told := db.(inventory := db.inventory[node := Inventory(n.value.epoch, |running|)]);
      BooksUnmoved(db, told);
      AbsentKeepsLimits(cfg, told, node, running, completed, now, |told.leases|);
    }
  }

  /** Over every run in which no host re-registers smaller, whatever else happens and in whatever order,
      open leases never exceed a host, a licence, the deployment, a share or a tier's cap. */
  lemma {:induction false} RunKeepsLimits(cfg: Config, db: Ledger, run: seq<Tick>, k: nat)
    requires ValidConfig(cfg) && k <= |run|
    requires WithinLimits(cfg, db) && Books(db) && Homed(db)
    requires forall m :: 0 <= m < k ==> NeverSmaller(StateAt(cfg, db, run, m), run[m].event)
    ensures
      var now := StateAt(cfg, db, run, k);
      WithinLimits(cfg, now) && Books(now) && Homed(now)
  {
    hide Books, Homed, NeverSmaller, Apply, FitsHost, FitsCap, FitsShare, FitsDeployment, SoundRow;
    if k > 0 {
      RunKeepsLimits(cfg, db, run, k - 1);
      var before := StateAt(cfg, db, run, k - 1);
      StepKeepsLimits(cfg, before, run[k - 1]);
      StepKeepsBooks(cfg, before, run[k - 1]);
      StepKeepsHomes(cfg, before, run[k - 1]);
    }
  }

  /** So a tier never holds more open leases than the ceiling it advertises. */
  lemma RunStaysWithinAdvertised(cfg: Config, db: Ledger, run: seq<Tick>, k: nat, t: Tier)
    requires ValidConfig(cfg) && k <= |run| && t in cfg.tiers
    requires WithinLimits(cfg, db) && Books(db) && Homed(db)
    requires forall m :: 0 <= m < k ==> NeverSmaller(StateAt(cfg, db, run, m), run[m].event)
    ensures Min(Used(StateAt(cfg, db, run, k).leases, InTiers({t.name})).leases, MAX_INT32) <= AdvertisedCeiling(cfg, t)
  {
    hide Books, Homed, NeverSmaller, StateAt, WithinLimits;
    RunKeepsLimits(cfg, db, run, k);
    OpenWithinAdvertised(cfg, StateAt(cfg, db, run, k), t);
  }

  /** A ledger nobody has written to meets every condition a run starts from. */
  lemma FreshLedger(cfg: Config, admission: Admission)
    requires ValidConfig(cfg)
    ensures
      var db := Ledger([], [], [], map[], admission, None, map[], map[]);
      WithinLimits(cfg, db) && Books(db) && Homed(db)
  {
    var db := Ledger([], [], [], map[], admission, None, map[], map[]);
    assert Used([], Everywhere) == NOTHING;
    forall t | t in cfg.tiers ensures FitsCap(t, db.leases) {
      UsedNone(db.leases, InTiers({t.name}));
    }
    forall target | target in cfg.shares ensures FitsShare(cfg, target, db.leases) {
      UsedNone(db.leases, InTiers(LabelsOf(cfg, target)));
      UsedNone(db.leases, OutsideTiers(AllLabels(cfg)));
    }
  }
}

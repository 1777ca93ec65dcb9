/** Every transaction the ledger takes, as one step, and what a run of them is. */
module Runs {
  import opened Placement
  import opened Catalogue
  import opened LedgerState
  import opened Purchases
  import opened EscrowImpl
  import opened Resizing
  import opened Leases
  import opened Barriers

  datatype Event =
    | OnLease(id: nat, call: Call)
    | Buy(tier: string, want: nat, purchase: Purchase)
    | Resize(id: nat, epoch: int, kind: string, size: Size, protect: seq<string>)
    | Reap(ids: seq<nat>)
    | Report(node: Host, epoch: int, running: seq<nat>, completed: set<nat>)
    | Register(registration: Registration)
    | GiveUpOn(node: Host, epoch: int)
    | Withdraw(node: Host, epoch: int, incarnation: string)
    | Drain(node: Host, epoch: int, incarnation: string)
    | ForgetEveryNode
    | DecommissionNode(node: Host, actor: string, force: bool)
    | BumpDispatch(node: Host)
    | RequestBarrier(generation: nat, barrier: string, actor: string)
    | DropBarrier(barrier: string)
    | Observe(obs: Observation)
    | InvalidateRun(node: Host)
    | InvalidateEveryRun
    | Seal(presented: int, provenance: string, keepExisting: bool)
    | Resume(presented: int, clears: string)

  /** An event and when the ledger took it. */
  datatype Tick = Tick(now: int, event: Event)

  /** What a scan's batch leaves; only what the expired scan could have answered is reclaimed. */
  ghost function Reaped(db: Ledger, ids: seq<nat>, now: int): Ledger
  {
    if ExpiredScan(db, now, ids) then ReclaimAll(db, ids) else db
  }

  ghost function Apply(cfg: Config, db: Ledger, t: Tick): Ledger
    requires ValidConfig(cfg)
  {
    match t.event
    case OnLease(id, call) => Called(cfg, db, id, call, t.now).db
    case Buy(tier, want, purchase) => Purchased(cfg, db, tier, want, purchase, t.now)
    case Resize(id, epoch, kind, size, protect) => Resized(cfg, db, id, epoch, kind, size, protect).db
    case Reap(ids) => Reaped(db, ids, t.now)
    case Report(node, epoch, running, completed) => Reported(db, node, epoch, running, completed, t.now)
    case Register(r) => if r.name == "" then db else Registered(db, r)
    case GiveUpOn(node, epoch) => Gone(db, node, epoch)
    case Withdraw(node, epoch, incarnation) => Withdrawn(db, node, epoch, incarnation)
    case Drain(node, epoch, incarnation) => Draining(db, node, epoch, incarnation)
    case ForgetEveryNode => Forgotten(db)
    case DecommissionNode(node, actor, force) => Decommissioned(db, node, actor, force)
    case BumpDispatch(node) => BumpedDispatch(db, node)
    case RequestBarrier(generation, id, actor) => Requested(db, generation, id, actor)
    case DropBarrier(id) => Dropped(db, id)
    case Observe(obs) => Observed(db, obs, t.now)
    case InvalidateRun(node) => Invalidated(db, node)
    case InvalidateEveryRun => AllInvalidated(db)
    case Seal(presented, provenance, keepExisting) => Sealing(db, presented, provenance, keepExisting)
    case Resume(presented, clears) => Resuming(db, presented, clears)
  }

  /** The ledger after the first `k` events of a run. */
  ghost function StateAt(cfg: Config, db: Ledger, run: seq<Tick>, k: nat): Ledger
    requires ValidConfig(cfg) && k <= |run|
  {
    if k == 0 then db else Apply(cfg, StateAt(cfg, db, run, k - 1), run[k - 1])
  }

  // ---- What lease transactions leave alone ----

  /** Hosts, admission, the barrier and its runs are as they were. */
  predicate FleetUnmoved(a: Ledger, b: Ledger)
  {
    a.nodes == b.nodes && a.admission == b.admission && a.barrier == b.barrier && a.runs == b.runs
  }

  lemma {:induction false} ReclaimFrame(db: Ledger, ids: seq<nat>)
    requires AreRows(db, ids)
    ensures FleetUnmoved(db, ReclaimAll(db, ids)) && ReclaimAll(db, ids).inventory == db.inventory
  {
    if ids != [] {
      ReclaimFrame(db, ids[..|ids| - 1]);
    }
  }

  lemma {:induction false} AbsentFrame(db: Ledger, node: Host, running: seq<nat>, completed: set<nat>, now: int, k: nat)
    requires k <= |db.leases|
    ensures FleetUnmoved(db, AbsentUpTo(db, node, running, completed, now, k))
  {
    if k > 0 {
      AbsentFrame(db, node, running, completed, now, k - 1);
    }
  }

  predicate OnlyLeases(e: Event) { e.OnLease? || e.Buy? || e.Resize? || e.Reap? || e.Report? }

  lemma LeaseEventsFrame(cfg: Config, db: Ledger, t: Tick)
    requires ValidConfig(cfg) && OnlyLeases(t.event)
    ensures FleetUnmoved(db, Apply(cfg, db, t))
  {
    hide EffectOf, Attempted, Resized, ReclaimAll, AbsentUpTo, NodeNamed, ExpiredScan;
    match t.event
    case Reap(ids) =>
      if ExpiredScan(db, t.now, ids) {
        ScanRows(db, t.now, ids);
        ReclaimFrame(db, ids);
      }
    case Report(node, epoch, running, completed) =>
      var n := NodeNamed(db.nodes, node);
      if n.Some? {
        var told := db.(inventory := db.inventory[node := Inventory(n.value.epoch, |running|)]);
        AbsentFrame(told, node, running, completed, t.now, |told.leases|);
      }
    case Resize(id, epoch, kind, size, protect) => ResizedFrame(cfg, db, id, epoch, kind, size, protect);
    case _ =>
  }

  lemma ScanRows(db: Ledger, now: int, ids: seq<nat>)
    requires ExpiredScan(db, now, ids)
    ensures AreRows(db, ids)
  {
  }

  lemma ResizedFrame(cfg: Config, db: Ledger, id: nat, epoch: int, kind: string, size: Size, protect: seq<string>)
    requires ValidConfig(cfg)
    ensures FleetUnmoved(db, Resized(cfg, db, id, epoch, kind, size, protect).db)
  {
    hide ShapeFits, AllHaveRoom, ResizeRefusal, Judged;
  }

  /** Every other event leaves leases, history and release generations alone. */
  lemma FleetEventsFrame(cfg: Config, db: Ledger, t: Tick)
    requires ValidConfig(cfg) && !OnlyLeases(t.event)
    ensures LeasesUnmoved(db, Apply(cfg, db, t))
  {
    hide Observed, Called, Purchased, Resized, Reaped, Reported, Registered, OnNode, Forgotten, Decommissioned, LeasesUnmoved;
    if NodeEvents(t.event) {
      NodeEventsFrame(cfg, db, t);
    } else if t.event.Observe? {
      ObservedLeases(db, t.event.obs, t.now);
    } else {
      TableEventsFrame(cfg, db, t);
    }
  }

  lemma ObservedLeases(db: Ledger, obs: Observation, now: int)
    ensures LeasesUnmoved(db, Observed(db, obs, now))
  {
    hide Current, Extended, NodeNamed;
  }

  lemma TableEventsFrame(cfg: Config, db: Ledger, t: Tick)
    requires ValidConfig(cfg) && !OnlyLeases(t.event) && !NodeEvents(t.event) && !t.event.Observe?
    ensures LeasesUnmoved(db, Apply(cfg, db, t))
  {
    hide Observed, Called, Purchased, Resized, Reaped, Reported, Registered, OnNode, Forgotten, Decommissioned;
  }

  predicate NodeEvents(e: Event)
  {
    e.Register? || e.GiveUpOn? || e.Withdraw? || e.Drain? || e.ForgetEveryNode? || e.DecommissionNode? || e.BumpDispatch?
  }

  /** Only hosts, inventory and runs may differ. */
  predicate OnlyHosts(a: Ledger, b: Ledger)
  {
    LeasesUnmoved(a, b) && b.admission == a.admission && b.barrier == a.barrier
  }

  lemma OnNodeFrame(db: Ledger, h: Host, change: Node -> Node)
    ensures OnlyHosts(db, OnNode(db, h, change))
  {
  }

  lemma DecommissionedFrame(db: Ledger, h: Host, actor: string, force: bool)
    ensures OnlyHosts(db, Decommissioned(db, h, actor, force))
  {
    hide NodeNamed, Proved, Outstanding, NodeIndex;
  }

  lemma RegisteredFrame(db: Ledger, r: Registration)
    ensures OnlyHosts(db, Registered(db, r)) && OnlyHosts(db, Forgotten(db)) && OnlyHosts(db, db)
  {
  }

  lemma NodeEventsFrame(cfg: Config, db: Ledger, t: Tick)
    requires ValidConfig(cfg) && NodeEvents(t.event)
    ensures LeasesUnmoved(db, Apply(cfg, db, t))
    ensures Apply(cfg, db, t).admission == db.admission && Apply(cfg, db, t).barrier == db.barrier
  {
    hide Called, Purchased, Resized, Reaped, Reported, Requested, Dropped, Observed, OnNode, Registered, Forgotten, Decommissioned;
    match t.event
    case GiveUpOn(node, epoch) => OnNodeFrame(db, node, (n: Node) => if n.epoch == epoch then n.(live := false) else n);
    case Withdraw(node, epoch, incarnation) =>
      OnNodeFrame(db, node, (n: Node) => if n.epoch == epoch && n.incarnation == incarnation then n.(live := false) else n);
    case Drain(node, epoch, incarnation) =>
      OnNodeFrame(db, node, (n: Node) => if n.epoch == epoch && n.incarnation == incarnation then n.(drained := true) else n);
    case BumpDispatch(node) => OnNodeFrame(db, node, (n: Node) => n.(dispatch := n.dispatch + 1));
    case DecommissionNode(node, actor, force) => DecommissionedFrame(db, node, actor, force);
    case Register(r) => RegisteredFrame(db, r);
    case ForgetEveryNode => RegisteredFrame(db, Registration("", Docker, "", 0, 0, [], 0, [], "", false));
  }

  predicate LeasesUnmoved(a: Ledger, b: Ledger)
  {
    a.leases == b.leases && a.history == b.history && a.releases == b.releases
  }
}

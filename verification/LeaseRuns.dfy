/** A lease's whole life, over every run of every transaction. */
module LeaseRuns {
  import opened Placement
  import opened Catalogue
  import opened LedgerState
  import opened Floors
  import opened EscrowImpl
  import opened Resizing
  import opened Leases
  import opened Lifecycle
  import opened Barriers
  import opened Runs
  import opened Safety

  /** A ledger a run may start from. */
  ghost predicate Ready(db: Ledger) { ValidNodes(db.nodes) && Books(db) }

  lemma StepStaysReady(cfg: Config, db: Ledger, t: Tick)
    requires ValidConfig(cfg) && Ready(db)
    ensures Ready(Apply(cfg, db, t))
  {
    hide Books, ValidNodes, Apply;
    StepKeepsBooks(cfg, db, t);
    StepKeepsNames(cfg, db, t);
  }

  lemma StepKeepsNames(cfg: Config, db: Ledger, t: Tick)
    requires ValidConfig(cfg) && ValidNodes(db.nodes)
    ensures ValidNodes(Apply(cfg, db, t).nodes)
  {
    hide Called, Purchased, Resized, Reaped, Reported, Requested, Dropped, Observed, Registered, OnNode, Decommissioned,
      Forgotten, SameSizes, ValidNodes;
    if OnlyLeases(t.event) {
      LeaseEventsFrame(cfg, db, t);
    } else if t.event.Register? {
      if t.event.registration.name != "" {
        RegisteredNames(db, t.event.registration);
      }
    } else {
      NodeEventsKeepSizes(cfg, db, t);
      SameSizesSameNames(db.nodes, Apply(cfg, db, t).nodes);
    }
  }

  lemma SameSizesSameNames(a: seq<Node>, b: seq<Node>)
    requires SameSizes(a, b) && ValidNodes(a)
    ensures ValidNodes(b)
  {
    assert NamesOf(a) == NamesOf(b);
  }

  /** Over every run: each closed lease archived exactly once, saying what its row says; no open lease
      archived; and a tier's release generation equal to its closed leases. */
  lemma {:induction false} RunKeepsBooks(cfg: Config, db: Ledger, run: seq<Tick>, k: nat)
    requires ValidConfig(cfg) && Ready(db) && k <= |run|
    ensures Ready(StateAt(cfg, db, run, k))
  {
    hide Ready, Apply;
    if k > 0 {
      RunKeepsBooks(cfg, db, run, k - 1);
      StepStaysReady(cfg, StateAt(cfg, db, run, k - 1), run[k - 1]);
    }
  }

  /** What a run may do to a row: same lease, fence and phase only forward; what finished stays finished with
      its charge as archived, and its verdict stands unless it was inventory's provisional one. */
  predicate Aged(a: Lease, b: Lease)
  {
    && a.tier == b.tier && a.target == b.target && a.epoch <= b.epoch
    && Rank(a.phase) <= Rank(b.phase) && (Rank(a.phase) == Rank(b.phase) && Open(a) ==> a.phase == b.phase)
    && (!Open(a) ==> !Open(b) && b == a.(phase := b.phase, failureReason := b.failureReason))
    && (!Open(a) && a.failureReason != PROVISIONAL ==> b.phase == a.phase && b.failureReason != PROVISIONAL)
  }

  lemma LawfulAges(a: Lease, b: Lease)
    requires LawfulRow(a, b)
    ensures Aged(a, b)
  {
    TableIsAcyclic(a.phase, b.phase);
  }

  /** Over every run, from any moment to any later one, a lease only ages. */
  lemma {:induction false} RunAgesLeases(cfg: Config, db: Ledger, run: seq<Tick>, a: nat, b: nat, id: nat)
    requires ValidConfig(cfg) && Ready(db) && a <= b <= |run| && id < |StateAt(cfg, db, run, a).leases|
    ensures
      var early, late := StateAt(cfg, db, run, a).leases, StateAt(cfg, db, run, b).leases;
      |early| <= |late| && Aged(early[id], late[id])
    decreases b - a
  {
    hide Ready, Apply, LawfulRow, Aged;
    if a == b {
      SameAge(StateAt(cfg, db, run, a).leases[id]);
    } else {
      RunAgesLeases(cfg, db, run, a, b - 1, id);
      var before, after := StateAt(cfg, db, run, b - 1), StateAt(cfg, db, run, b);
      RunKeepsBooks(cfg, db, run, b - 1);
      ReadyLedger(before);
      StepMovesRowsLawfully(cfg, before, run[b - 1], id);
      LawfulAges(before.leases[id], after.leases[id]);
      AgesAdd(StateAt(cfg, db, run, a).leases[id], before.leases[id], after.leases[id]);
    }
  }

  lemma SameAge(l: Lease)
    ensures Aged(l, l)
  {
  }

  lemma AgesAdd(a: Lease, b: Lease, c: Lease)
    requires Aged(a, b) && Aged(b, c)
    ensures Aged(a, c)
  {
  }

  lemma ReadyLedger(db: Ledger)
    requires Ready(db)
    ensures ValidNodes(db.nodes) && Books(db)
  {
  }

  /** The phase a call leaves a lease in. */
  function PhaseAfter(cfg: Config, db: Ledger, id: nat, call: Call, now: int): Phase
    requires id < |db.leases|
  {
    SettleAddsNoRow(db, id, EffectOf(cfg, db, id, call, now));
    Called(cfg, db, id, call, now).db.leases[id].phase
  }

  /** A finished lease's phase can still be changed by some call exactly when its verdict is inventory's provisional
      one, and then only to another terminal phase. */
  lemma VerdictChangesExactlyWhen(cfg: Config, db: Ledger, id: nat)
    requires Ready(db) && id < |db.leases| && !Open(db.leases[id])
    ensures (exists call, now :: PhaseAfter(cfg, db, id, call, now) != db.leases[id].phase) <==> db.leases[id].failureReason == PROVISIONAL
    ensures forall call, now :: PhaseAfter(cfg, db, id, call, now).Terminal()
  {
    hide EffectOf, PROVISIONAL, ValidNodes;
    var l := db.leases[id];
    BooksRow(db, id);
    forall call, now
      ensures PhaseAfter(cfg, db, id, call, now).Terminal()
      ensures l.failureReason != PROVISIONAL ==> PhaseAfter(cfg, db, id, call, now) == l.phase
    {
      CallsAreLawful(cfg, db, id, call, now);
      SettledRow(db, id, EffectOf(cfg, db, id, call, now), id);
    }
    if l.failureReason == PROVISIONAL {
      CompletionCorrects(cfg, db, id);
      assert PhaseAfter(cfg, db, id, SettleCompletion(0, Done), 0) != l.phase;
    }
  }

  lemma CompletionCorrects(cfg: Config, db: Ledger, id: nat)
    requires id < |db.leases| && db.leases[id].phase == Failed && db.leases[id].failureReason == PROVISIONAL
    ensures PhaseAfter(cfg, db, id, SettleCompletion(0, Done), 0) == Done
  {
    hide PROVISIONAL;
  }

  // ---- The fence ----

  /** Once a lease's fence has passed an epoch, no call or resize presenting that epoch ever changes anything again. */
  lemma StaleHolderChangesNothing(cfg: Config, db: Ledger, run: seq<Tick>, a: nat, b: nat, id: nat, call: Call, now: int)
    requires ValidConfig(cfg) && Ready(db) && a <= b <= |run| && id < |StateAt(cfg, db, run, a).leases|
    requires call.IsFenced() && call.epoch < StateAt(cfg, db, run, a).leases[id].epoch
    ensures
      var current := StateAt(cfg, db, run, b);
      && Called(cfg, current, id, call, now).db == current && Called(cfg, current, id, call, now).answer != OK
      && (forall kind, size, protect :: Resized(cfg, current, id, call.epoch, kind, size, protect) == Change(Fenced, current))
  {
    hide Ready, StateAt, EffectOn, ResizeRefusal, ShapeFits, Judged;
    RunAgesLeases(cfg, db, run, a, b, id);
  }

  /** A reclaim moves the fence of every lease it takes. */
  lemma ReapMovesFences(db: Ledger, ids: seq<nat>, now: int, id: nat)
    requires ExpiredScan(db, now, ids) && id in ids
    ensures id < |db.leases| && Reaped(db, ids, now).leases[id].epoch == db.leases[id].epoch + 1
    ensures Reaped(db, ids, now).leases[id].phase == if HadCompute(db.leases[id].phase) then Quarantine else Failed
  {
    var i :| 0 <= i < |ids| && ids[i] == id;
    assert id < |db.leases|;
    ReclaimAllRows(db, ids, id);
  }

  // ---- Expiry never ends a lease that may have compute ----

  /** Something other than time ended the lease: a call that names it, or its own host's inventory, under the
      registration in force and more than five minutes past its expiry, no longer listing it. */
  predicate EndedBy(db: Ledger, t: Tick, id: nat)
    requires id < |db.leases|
  {
    || (t.event.OnLease? && t.event.id == id)
    || (&& t.event.Report? && id !in t.event.running
        && t.event.node == (if db.leases[id].node != "" then db.leases[id].node else db.leases[id].target)
        && NodeNamed(db.nodes, t.event.node).Some? && NodeNamed(db.nodes, t.event.node).value.epoch == t.event.epoch
        && db.leases[id].phase == Quarantine && db.leases[id].expiresAt < t.now - 300_000_000_000)
  }

  /** From launching to quarantine, a host may be running something for the lease. */
  predicate MayHaveCompute(l: Lease) { l.phase in {Launching, Online, Busy, Custody, Teardown, Quarantine} }

  lemma ReportEnds(db: Ledger, node: Host, epoch: int, running: seq<nat>, completed: set<nat>, now: int, id: nat)
    requires id < |db.leases| && Open(db.leases[id])
    ensures
      var after := Reported(db, node, epoch, running, completed, now).leases;
      |after| == |db.leases| && (!Open(after[id]) ==> EndedBy(db, Tick(now, Report(node, epoch, running, completed)), id))
  {
    hide AbsentUpTo, NodeNamed, AbsentEffect;
    var n := NodeNamed(db.nodes, node);
    if n.Some? && n.value.epoch == epoch {
      var told := db.(inventory := db.inventory[node := Inventory(n.value.epoch, |running|)]);
      AbsentRows(told, node, running, completed, now, |told.leases|, id);
    }
  }

  /** One event ends a lease that may have compute only in one of those ways. */
  lemma StepEndsCompute(cfg: Config, db: Ledger, t: Tick, id: nat)
    requires ValidConfig(cfg) && Ready(db) && id < |db.leases| && MayHaveCompute(db.leases[id])
    ensures
      var after := Apply(cfg, db, t).leases;
      |db.leases| <= |after| && (!Open(after[id]) ==> EndedBy(db, t, id))
  {
    hide Books, EffectOf, Purchased, Resized, Reaped, Reported, NodeNamed, ValidNodes, LawfulRow, EndedBy, Settle;
    StepMovesRowsLawfully(cfg, db, t, id);
    if !OnlyLeases(t.event) {
      FleetEventsFrame(cfg, db, t);
    } else {
      match t.event
      case OnLease(i, call) =>
        if i == id {
          CallEnds(db, t, id);
        } else {
          SettleLeavesOthers(db, i, EffectOf(cfg, db, i, call, t.now), id);
        }
      case Buy(tier, want, purchase) =>
        var rows := PurchaseAppends(cfg, db, tier, want, purchase, t.now);
      case Resize(i, epoch, kind, size, protect) => ReshapeIsLawful(cfg, db, i, epoch, kind, size, protect);
      case Reap(ids) =>
        BooksRow(db, id);
        ReapedRow(db, ids, t.now, id);
      case Report(node, epoch, running, completed) =>
        ReportEnds(db, node, epoch, running, completed, t.now, id);
    }
  }

  lemma CallEnds(db: Ledger, t: Tick, id: nat)
    requires id < |db.leases| && t.event.OnLease? && t.event.id == id
    ensures EndedBy(db, t, id)
  {
  }

  lemma SettleLeavesOthers(db: Ledger, id: nat, e: Effect, other: nat)
    requires other < |db.leases| && id != other
    ensures |Settle(db, id, e).db.leases| == |db.leases| && Settle(db, id, e).db.leases[other] == db.leases[other]
  {
  }

  /** Over every run: a lease that may have compute and later is closed was closed by a call that names it or
      by its own host's inventory past the grace, never by the clock alone. */
  lemma {:induction false} ExpiryNeverEndsCompute(cfg: Config, db: Ledger, run: seq<Tick>, a: nat, b: nat, id: nat)
    returns (m: nat)
    requires ValidConfig(cfg) && Ready(db) && a <= b <= |run| && id < |StateAt(cfg, db, run, a).leases|
    requires MayHaveCompute(StateAt(cfg, db, run, a).leases[id])
    requires id < |StateAt(cfg, db, run, b).leases| && !Open(StateAt(cfg, db, run, b).leases[id])
    ensures a <= m < b && id < |StateAt(cfg, db, run, m).leases| && Open(StateAt(cfg, db, run, m).leases[id])
    ensures EndedBy(StateAt(cfg, db, run, m), run[m], id)
    decreases b - a
  {
    hide Ready, Apply, EndedBy;
    RunAgesLeases(cfg, db, run, a, b - 1, id);
    var before := StateAt(cfg, db, run, b - 1);
    if Open(before.leases[id]) {
      RunKeepsBooks(cfg, db, run, b - 1);
      StepEndsCompute(cfg, before, run[b - 1], id);
      return b - 1;
    }
    m := ExpiryNeverEndsCompute(cfg, db, run, a, b - 1, id);
  }

  // ---- A lease only ever runs where it may ----

  /** A bound lease is on a host that permits its guest and on a backend it accepts, and a running one is bound. */
  predicate Legal(cfg: Config, l: Lease)
  {
    && (l.node != "" ==> AllowsGuestOS(cfg, l.node, l.guestOS) && l.provider.Some? && l.provider.value in l.providers)
    && (RequiresPlacement(l.phase) ==> l.node != "")
  }

  lemma HolderCallsKeepLegal(cfg: Config, nodes: seq<Node>, l: Lease, call: Call, now: int)
    requires Legal(cfg, l) && !Malformed(call)
    requires call.Assign? || call.Bind? || call.Advance? || call.Heartbeat? || call.MarkFailure?
    ensures
      var e := EffectOn(cfg, nodes, l, call, now);
      e.Write? || e.Shut? || e.Amend? ==> Legal(cfg, e.lease)
  {
    hide NodeNamed, AllowsGuestOS, ReleaseEffect, ReleaseFailedEffect, ForceTerminateEffect, ForceReleaseEffect, ResolveEffect,
      ResolveFailedEffect, SettleCompletionEffect;
  }

  lemma EndingCallsKeepLegal(cfg: Config, nodes: seq<Node>, l: Lease, call: Call, now: int)
    requires Legal(cfg, l) && !Malformed(call)
    requires !(call.Assign? || call.Bind? || call.Advance? || call.Heartbeat? || call.MarkFailure?)
    ensures
      var e := EffectOn(cfg, nodes, l, call, now);
      e.Write? || e.Shut? || e.Amend? ==> Legal(cfg, e.lease)
  {
    hide AllowsGuestOS, AssignEffect, BindEffect, AdvanceEffect, HeartbeatEffect, MarkFailureEffect,
      PROVISIONAL, FORCE_DESTROYED, FORCE_RELEASED;
  }

  lemma CallsKeepLegal(cfg: Config, db: Ledger, id: nat, call: Call, now: int, other: nat)
    requires other < |db.leases| && Legal(cfg, db.leases[other]) && (id < |db.leases| ==> Legal(cfg, db.leases[id]))
    ensures
      var after := Called(cfg, db, id, call, now).db.leases;
      |after| == |db.leases| && Legal(cfg, after[other])
  {
    hide Legal, EffectOn, Archived, Amended;
    SettleAddsNoRow(db, id, EffectOf(cfg, db, id, call, now));
    if id < |db.leases| && !Malformed(call) && Found(db, id, call) == OK {
      if call.Assign? || call.Bind? || call.Advance? || call.Heartbeat? || call.MarkFailure? {
        HolderCallsKeepLegal(cfg, db.nodes, db.leases[id], call, now);
      } else {
        EndingCallsKeepLegal(cfg, db.nodes, db.leases[id], call, now);
      }
      SettleWrites(db, id, EffectOf(cfg, db, id, call, now), other);
    }
  }

  lemma SettleWrites(db: Ledger, id: nat, e: Effect, other: nat)
    requires id < |db.leases| && other < |db.leases|
    ensures
      var after := Settle(db, id, e).db.leases;
      |after| == |db.leases| && after[other] == if other == id && (e.Write? || e.Shut? || e.Amend?) then e.lease else db.leases[other]
  {
  }

  lemma SettlingKeepsLegal(cfg: Config, l: Lease, completed: bool)
    requires Legal(cfg, l)
    ensures Open(l) && l.phase != Quarantine ==> Legal(cfg, Reclaimed(l))
    ensures l.phase == Quarantine ==> Legal(cfg, Absent(l, completed))
  {
    hide AllowsGuestOS, PROVISIONAL;
  }

  lemma StepKeepsLegal(cfg: Config, db: Ledger, t: Tick, id: nat)
    requires ValidConfig(cfg) && Ready(db) && (forall i: nat :: i < |db.leases| ==> Legal(cfg, db.leases[i]))
    requires id < |Apply(cfg, db, t).leases|
    ensures Legal(cfg, Apply(cfg, db, t).leases[id])
  {
    hide Legal, Called, Purchased, Resized, ReclaimAll, AbsentUpTo, NodeNamed, ValidNodes, Books, AbsentEffect, ReclaimEffect;
    if id >= |db.leases| {
      NewRowHasHome(cfg, db, t, id);
      FreshIsLegal(cfg, db, Apply(cfg, db, t).leases[id]);
    } else if !OnlyLeases(t.event) {
      FleetEventsFrame(cfg, db, t);
    } else {
      match t.event
      case OnLease(i, call) => CallsKeepLegal(cfg, db, i, call, t.now, id);
      case Buy(tier, want, purchase) =>
        var rows := PurchaseAppends(cfg, db, tier, want, purchase, t.now);
      case Resize(i, epoch, kind, size, protect) =>
        ReshapeIsLawful(cfg, db, i, epoch, kind, size, protect);
        ReshapeKeepsLegal(cfg, db.leases[id], kind, size);
      case Reap(ids) =>
        if ExpiredScan(db, t.now, ids) {
          ReclaimAllRows(db, ids, id);
          SettlingKeepsLegal(cfg, db.leases[id], false);
        }
      case Report(node, epoch, running, completed) =>
        var n := NodeNamed(db.nodes, node);
        if n.Some? && n.value.epoch == epoch {
          var told := db.(inventory := db.inventory[node := Inventory(n.value.epoch, |running|)]);
          AbsentRows(told, node, running, completed, t.now, |told.leases|, id);
          SettlingKeepsLegal(cfg, db.leases[id], id in completed);
        }
    }
  }

  lemma FreshIsLegal(cfg: Config, db: Ledger, l: Lease)
    requires FreshRow(db, l)
    ensures Legal(cfg, l)
  {
  }

  lemma ReshapeKeepsLegal(cfg: Config, l: Lease, kind: string, size: Size)
    requires Legal(cfg, l)
    ensures Legal(cfg, WithShape(l, kind, size))
  {
  }

  /** Over every run a bound lease is where its guest and its backend allow, and a running lease is bound. */
  lemma {:induction false} RunKeepsPlacementLegal(cfg: Config, db: Ledger, run: seq<Tick>, k: nat, id: nat)
    requires ValidConfig(cfg) && Ready(db) && (forall i: nat :: i < |db.leases| ==> Legal(cfg, db.leases[i]))
    requires k <= |run| && id < |StateAt(cfg, db, run, k).leases|
    ensures Legal(cfg, StateAt(cfg, db, run, k).leases[id])
    decreases k
  {
    hide Ready, Apply, Legal;
    if k > 0 {
      var before := StateAt(cfg, db, run, k - 1);
      forall i: nat | i < |before.leases| ensures Legal(cfg, before.leases[i]) {
        RunKeepsPlacementLegal(cfg, db, run, k - 1, i);
      }
      RunKeepsBooks(cfg, db, run, k - 1);
      StepKeepsLegal(cfg, before, run[k - 1], id);
    }
  }
}

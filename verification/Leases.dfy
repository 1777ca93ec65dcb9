/**
 A lease's life: the phase table, the fence, and what each call does to the one
 row it names. A call computes an `Effect`; `Settle` writes it.
 */
module Leases {
  import opened Placement
  import opened Catalogue
  import opened LedgerState

  // ---- The state machine ----

  /** The phases a lease may move to; a move not listed is refused. */
  function Successors(p: Phase): seq<Phase>
  {
    match p
    case Capacity => [Assigned, Done, Failed]
    case Assigned => [Launching, Done, Failed]
    case Launching => [Online, Custody, Teardown, Quarantine, Done, Failed]
    case Online => [Busy, Custody, Teardown, Quarantine, Done, Failed]
    case Busy => [Custody, Teardown, Quarantine, Done, Failed]
    case Custody => [Teardown, Quarantine, Done, Failed]
    case Teardown => [Quarantine, Done, Failed]
    case Quarantine => [Done, Failed]
    case Done => []
    case Failed => []
  }

  predicate CanMoveTo(p: Phase, next: Phase) { next in Successors(p) }

  /** A host is presumed to be running the instance. */
  predicate RequiresPlacement(p: Phase) { p.Launching? || p.Online? || p.Busy? }

  /** A container may exist: expiry says the holder stopped, never that the compute did. */
  predicate HadCompute(p: Phase) { p.Launching? || p.Online? || p.Busy? || p.Custody? || p.Teardown? }

  /** How far along a phase is; the table only goes up. */
  function Rank(p: Phase): nat
  {
    match p
    case Capacity => 0
    case Assigned => 1
    case Launching => 2
    case Online => 3
    case Busy => 4
    case Custody => 5
    case Teardown => 6
    case Quarantine => 7
    case Done => 8
    case Failed => 8
  }

  // ---- Effects ----

  /** What a call does to the row it names. `Amend` also corrects the row's archived close. */
  datatype Effect =
    | Refuse(why: Answer)
    | Keep
    | Write(lease: Lease)
    | Shut(lease: Lease)
    | Amend(lease: Lease)

  function ClosingOf(id: nat, l: Lease): Closing
  {
    Closing(id, l.tier, Holder(l), l.phase, l.vcpu, l.memory, l.failureReason)
  }

  function Releases(m: map<string, nat>, tier: string): nat
  {
    if tier in m then m[tier] else 0
  }

  /** Writes a closed row, its history entry and its tier's release generation, together. */
  function Archived(db: Ledger, id: nat, l: Lease): Ledger
    requires id < |db.leases|
  {
    db.(leases := db.leases[id := l],
        history := db.history + [ClosingOf(id, l)],
        releases := db.releases[l.tier := Releases(db.releases, l.tier) + 1])
  }

  function Amended(history: seq<Closing>, id: nat, l: Lease): (out: seq<Closing>)
    ensures |out| == |history|
    ensures forall i :: 0 <= i < |history| ==>
      out[i] == if history[i].lease == id then history[i].(outcome := l.phase, reason := l.failureReason) else history[i]
  {
    seq(|history|, i requires 0 <= i < |history| =>
      if history[i].lease == id then history[i].(outcome := l.phase, reason := l.failureReason) else history[i])
  }

  datatype Settled = Settled(answer: Answer, db: Ledger)

  function Settle(db: Ledger, id: nat, e: Effect): Settled
  {
    match e
    case Refuse(why) => Settled(why, db)
    case Keep => Settled(OK, db)
    case Write(l) => Settled(OK, if id < |db.leases| then db.(leases := db.leases[id := l]) else db)
    case Shut(l) => Settled(OK, if id < |db.leases| then Archived(db, id, l) else db)
    case Amend(l) => Settled(OK, if id < |db.leases|
                                 then db.(leases := db.leases[id := l], history := Amended(db.history, id, l)) else db)
  }

  // ---- The calls ----

  const PROVISIONAL := "billet:provisional:inventory-absence"
  const FORCE_RELEASED := "billet:force-released"
  const FORCE_DESTROYED := "billet:force-destroy"

  /** Reasons a caller may not write for itself. */
  predicate Reserved(reason: string) { reason == "" || reason == PROVISIONAL || reason == FORCE_RELEASED }

  /** A call that names one lease; an epoch is what the caller holds. */
  datatype Call =
    | Assign(epoch: int, run: int, request: int)
    | Bind(epoch: int, node: Host)
    | Advance(epoch: int, to: Phase)
    | Heartbeat(epoch: int)
    | MarkFailure(epoch: int, reason: string)
    | Release(epoch: int, outcome: Phase)
    | ReleaseFailed(epoch: int, reason: string)
    | ForceTerminate
    | ForceRelease
    | ResolveQuarantine(outcome: Phase)
    | ResolveQuarantineFailed(reason: string)
    | SettleCompletion(epoch: int, outcome: Phase)
  {
    /** Calls that present the epoch they hold and are refused when it has moved. */
    predicate IsFenced() { Assign? || Bind? || Advance? || Heartbeat? || MarkFailure? || Release? || ReleaseFailed? }
  }

  /** Whether a lease may run on a host: its guest, its recorded providers, the host's registration. */
  function CheckPlacement(cfg: Config, nodes: seq<Node>, l: Lease, node: Host): Answer
  {
    if !AllowsGuestOS(cfg, node, l.guestOS) then GuestOSNotAllowed
    else if l.providers == [] then NotPlaceable
    else
      match NodeNamed(nodes, node)
      case None => WrongNode
      case Some(n) => if n.provider in l.providers then OK else WrongProvider
  }

  function AssignEffect(l: Lease, run: int, request: int, expiresAt: int): Effect
  {
    if l.phase == Assigned then (if l.run == run && l.request == request then Keep else Refuse(Conflict))
    else if !CanMoveTo(l.phase, Assigned) then Refuse(BadTransition)
    else Write(l.(phase := Assigned, run := run, request := request, expiresAt := expiresAt))
  }

  function BindEffect(cfg: Config, nodes: seq<Node>, l: Lease, node: Host): Effect
  {
    if l.target != "" && l.target != node then Refuse(WrongNode)
    else if l.node == node then Keep
    else if l.node != "" || RequiresPlacement(l.phase) then Refuse(WrongNode)
    else
      var placed := CheckPlacement(cfg, nodes, l, node);
      if placed != OK then Refuse(placed)
      else Write(l.(node := node, provider := Some(NodeNamed(nodes, node).value.provider)))
  }

  /** A fenced move along the table; placement is checked before a repeat is acknowledged. */
  function AdvanceEffect(cfg: Config, nodes: seq<Node>, l: Lease, to: Phase, expiresAt: int): Effect
  {
    if l.phase != to && !CanMoveTo(l.phase, to) then Refuse(BadTransition)
    else if RequiresPlacement(to) && l.node == "" then Refuse(NotPlaced)
    else
      var placed := if RequiresPlacement(to) then CheckPlacement(cfg, nodes, l, l.node) else OK;
      if placed != OK then Refuse(placed)
      else if l.phase == to then Keep
      else
        var moved := l.(phase := to, expiresAt := expiresAt);
        if to.Terminal() then Shut(moved) else Write(moved)
  }

  function HeartbeatEffect(l: Lease, expiresAt: int): Effect
  {
    if l.forceRelease then Refuse(ReleaseRequested) else Write(l.(expiresAt := expiresAt))
  }

  function MarkFailureEffect(l: Lease, reason: string): Effect
  {
    if l.failureReason != "" && l.failureReason != reason then Refuse(Conflict) else Write(l.(failureReason := reason))
  }

  /** Ending a lease; the same outcome again is acknowledged, another is refused. */
  function ReleaseEffect(l: Lease, outcome: Phase): Effect
  {
    if l.phase.Terminal() then (if l.phase == outcome then Keep else Refuse(Conflict))
    else Shut(l.(phase := outcome))
  }

  function Explained(l: Lease, reason: string): Lease
  {
    if l.failureReason == "" then l.(failureReason := reason) else l
  }

  function ReleaseFailedEffect(l: Lease, reason: string): Effect
  {
    if l.phase == Failed then (if l.failureReason == "" then Amend(Explained(l, reason)) else Keep)
    else if l.phase.Terminal() then Refuse(Conflict)
    else Shut(Explained(l, reason).(phase := Failed))
  }

  /** Only the phases an operator approved: a lease that found a holder, or lost one, is not touched. */
  function ForceTerminateEffect(l: Lease): Effect
  {
    if l.phase.Terminal() then Keep
    else if !(l.phase.Assigned? || RequiresPlacement(l.phase)) then Refuse(ForceHeld)
    else Shut(Explained(l, FORCE_DESTROYED).(phase := Failed, epoch := l.epoch + 1))
  }

  /** A quarantine has no holder and is resolved here; custody and teardown are asked to let go. */
  function ForceReleaseEffect(l: Lease): Effect
  {
    match l.phase
    case Quarantine => Shut(Explained(l, FORCE_RELEASED).(phase := Failed, epoch := l.epoch + 1))
    case Custody | Teardown => Write(Explained(l, FORCE_RELEASED).(forceRelease := true))
    case _ => Refuse(BadTransition)
  }

  function ResolveEffect(l: Lease, outcome: Phase): Effect
  {
    if l.phase != Quarantine then Refuse(NotFound) else Shut(l.(phase := outcome, epoch := l.epoch + 1))
  }

  function ResolveFailedEffect(l: Lease, reason: string): Effect
  {
    if l.phase == Failed then (if l.failureReason == "" then Amend(Explained(l, reason)) else Keep)
    else if l.phase != Quarantine then Refuse(NotFound)
    else Shut(Explained(l, reason).(phase := Failed, epoch := l.epoch + 1))
  }

  /** A completion against a lease something else settled: only inventory's provisional verdict is corrected. */
  function SettleCompletionEffect(l: Lease, epoch: int, outcome: Phase): Effect
  {
    if l.epoch < epoch || !l.phase.Terminal() || l.failureReason != PROVISIONAL then Keep
    else Amend(l.(phase := outcome, failureReason := ""))
  }

  /** Calls that are refused before any row is read. */
  predicate Malformed(call: Call)
  {
    match call
    case Bind(_, node) => node == ""
    case MarkFailure(_, reason) => Reserved(reason)
    case Release(_, outcome) => !outcome.Terminal()
    case ReleaseFailed(_, reason) => Reserved(reason)
    case ResolveQuarantine(outcome) => !outcome.Terminal()
    case ResolveQuarantineFailed(reason) => Reserved(reason)
    case SettleCompletion(_, outcome) => !outcome.Terminal()
    case _ => false
  }

  /** Which rows a call may read: open ones at its epoch, any at its epoch, or any at all. */
  function Found(db: Ledger, id: nat, call: Call): (a: Answer)
    ensures a == OK ==> id < |db.leases|
  {
    match call
    case Release(epoch, _) => LoadAny(db, id, epoch)
    case ReleaseFailed(epoch, _) => LoadAny(db, id, epoch)
    case ForceTerminate | ForceRelease | ResolveQuarantine(_) | ResolveQuarantineFailed(_) | SettleCompletion(_, _) =>
      if id < |db.leases| then OK else NotFound
    case _ => Load(db, id, call.epoch)
  }

  /** Calls for which a row that is gone is the outcome they wanted. */
  predicate GoneIsFine(call: Call) { call.ForceTerminate? || call.SettleCompletion? }

  function EffectOn(cfg: Config, nodes: seq<Node>, l: Lease, call: Call, now: int): Effect
    requires !Malformed(call)
  {
    var expiresAt := now + cfg.leaseTTL;
    match call
    case Assign(_, run, request) => AssignEffect(l, run, request, expiresAt)
    case Bind(_, node) => BindEffect(cfg, nodes, l, node)
    case Advance(_, to) => AdvanceEffect(cfg, nodes, l, to, expiresAt)
    case Heartbeat(_) => HeartbeatEffect(l, expiresAt)
    case MarkFailure(_, reason) => MarkFailureEffect(l, reason)
    case Release(_, outcome) => ReleaseEffect(l, outcome)
    case ReleaseFailed(_, reason) => ReleaseFailedEffect(l, reason)
    case ForceTerminate => ForceTerminateEffect(l)
    case ForceRelease => ForceReleaseEffect(l)
    case ResolveQuarantine(outcome) => ResolveEffect(l, outcome)
    case ResolveQuarantineFailed(reason) => ResolveFailedEffect(l, reason)
    case SettleCompletion(epoch, outcome) => SettleCompletionEffect(l, epoch, outcome)
  }

  function EffectOf(cfg: Config, db: Ledger, id: nat, call: Call, now: int): Effect
  {
    if Malformed(call) then Refuse(if call.Bind? || call.MarkFailure? || call.ReleaseFailed? || call.ResolveQuarantineFailed?
                                   then Invalid else BadTransition)
    else
      var found := Found(db, id, call);
      if found == NotFound && GoneIsFine(call) then Keep
      else if found != OK then Refuse(found)
      else EffectOn(cfg, db.nodes, db.leases[id], call, now)
  }

  /** One call, as a transaction. */
  function Called(cfg: Config, db: Ledger, id: nat, call: Call, now: int): Settled
  {
    Settle(db, id, EffectOf(cfg, db, id, call, now))
  }

  // ---- Reclaiming ----

  const REAP_BATCH := 256

  /** The expired scan leaves out what has finished and what is already quarantined. */
  predicate Reapable(l: Lease, now: int)
  {
    !l.phase.Terminal() && l.phase != Quarantine && l.expiresAt <= now
  }

  function ReclaimEffect(l: Lease): Effect
  {
    if HadCompute(l.phase) then Write(l.(phase := Quarantine, epoch := l.epoch + 1))
    else Shut(l.(phase := Failed, epoch := l.epoch + 1))
  }

  predicate AreRows(db: Ledger, ids: seq<nat>)
  {
    forall i :: 0 <= i < |ids| ==> ids[i] < |db.leases|
  }

  /** Reclaims each row of a scan in turn. */
  function ReclaimAll(db: Ledger, ids: seq<nat>): (out: Ledger)
    requires AreRows(db, ids)
    ensures |out.leases| == |db.leases|
  {
    if ids == [] then db
    else
      var last := ids[|ids| - 1];
      var before := ReclaimAll(db, ids[..|ids| - 1]);
      Settle(before, last, ReclaimEffect(before.leases[last])).db
  }

  /** What the expired scan may answer: expired rows, each once, every one of them unless the batch is full,
      and then none later than one left behind. */
  ghost predicate ExpiredScan(db: Ledger, now: int, ids: seq<nat>)
  {
    && Distinct(ids) && |ids| <= REAP_BATCH
    && AreRows(db, ids)
    && (forall i :: 0 <= i < |ids| ==> Reapable(db.leases[ids[i]], now))
    && (forall i, j :: 0 <= i < j < |ids| ==> db.leases[ids[i]].expiresAt <= db.leases[ids[j]].expiresAt)
    && (forall id: nat :: id < |db.leases| && Reapable(db.leases[id], now) && id !in ids ==>
          |ids| == REAP_BATCH && forall i :: 0 <= i < |ids| ==> db.leases[ids[i]].expiresAt <= db.leases[id].expiresAt)
  }

  // ---- Inventory ----

  /** Times are in nanoseconds. */
  const MINUTE := 60_000_000_000
  const QUARANTINE_GRACE := 5 * MINUTE

  /** A quarantined lease an inventory may speak about: on this host, expired for longer than the grace. */
  predicate Settleable(l: Lease, node: Host, now: int)
  {
    l.phase == Quarantine && Holder(l) == node && l.expiresAt < now - QUARANTINE_GRACE
  }

  /** The guest is gone: a recorded completion makes it done, a recorded reason stands, and otherwise
      the verdict is provisional. */
  function AbsentEffect(l: Lease, completed: bool): Effect
  {
    if l.failureReason == "" && completed then Shut(l.(phase := Done, epoch := l.epoch + 1))
    else Shut(Explained(l, PROVISIONAL).(phase := Failed, epoch := l.epoch + 1))
  }

  /** Settles, among the first `k` rows, each quarantined lease a host's inventory does not mention. */
  function AbsentUpTo(db: Ledger, node: Host, running: seq<nat>, completed: set<nat>, now: int, k: nat): (out: Ledger)
    requires k <= |db.leases|
    ensures |out.leases| == |db.leases|
  {
    if k == 0 then db
    else
      var before := AbsentUpTo(db, node, running, completed, now, k - 1);
      var l := before.leases[k - 1];
      if Settleable(l, node, now) && k - 1 !in running
      then Settle(before, k - 1, AbsentEffect(l, k - 1 in completed)).db
      else before
  }

  /** A host's inventory, fenced on the registration that reported it. */
  function Reported(db: Ledger, node: Host, epoch: int, running: seq<nat>, completed: set<nat>, now: int): Ledger
  {
    match NodeNamed(db.nodes, node)
    case None => db
    case Some(n) =>
      if n.epoch != epoch then db
      else
        var told := db.(inventory := db.inventory[node := Inventory(n.epoch, |running|)]);
        AbsentUpTo(told, node, running, completed, now, |told.leases|)
  }
}

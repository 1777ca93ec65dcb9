/** What each lease call means to whoever makes it: what an answer of OK promises about the row, the history and the
    same call made again, and what each refusal says. */
module LeaseAnswers {
  import opened Placement
  import opened Catalogue
  import opened LedgerState
  import opened Leases
  import opened Lifecycle

  /** The ledger with one row rewritten, and nothing else. */
  function Rewritten(db: Ledger, id: nat, l: Lease): Ledger
    requires id < |db.leases|
  {
    db.(leases := db.leases[id := l])
  }

  /** The row was closed as it stands: one more history entry that says what it says, one more close of its tier. */
  ghost predicate ClosedAs(before: Ledger, after: Ledger, id: nat, l: Lease)
    requires id < |before.leases|
  {
    && after.leases == before.leases[id := l]
    && after.history == before.history +
         [Closing(id, l.tier, if l.node != "" then l.node else l.target, l.phase, l.vcpu, l.memory, l.failureReason)]
    && Releases(after.releases, l.tier) == Releases(before.releases, l.tier) + 1
    && (forall tier :: tier != l.tier ==> Releases(after.releases, tier) == Releases(before.releases, tier))
    && after.nodes == before.nodes && after.admission == before.admission && after.barrier == before.barrier
    && after.runs == before.runs && after.inventory == before.inventory
  }

  /** A reason a caller may give: some reason, and neither of the two the ledger writes for itself. */
  predicate MayGive(reason: string)
  {
    reason != "" && reason != "billet:provisional:inventory-absence" && reason != "billet:force-released"
  }

  predicate Finished(l: Lease) { l.phase == Done || l.phase == Failed }

  lemma ArchivedIsClosedAs(db: Ledger, id: nat, l: Lease)
    requires id < |db.leases|
    ensures ClosedAs(db, Archived(db, id, l), id, l)
  {
  }

  /** A finished row corrected, its history entry with it, and nothing else. */
  predicate CorrectedAs(before: Ledger, after: Ledger, id: nat, l: Lease)
    requires id < |before.leases|
  {
    && after == before.(leases := before.leases[id := l], history := after.history)
    && |after.history| == |before.history|
    && forall i :: 0 <= i < |before.history| ==>
         after.history[i] == if before.history[i].lease == id
                             then before.history[i].(outcome := l.phase, reason := l.failureReason) else before.history[i]
  }

  // ---- Ending a lease ----

  /** A release is answered OK exactly for a row at the caller's epoch that is open or ended so already, and then the
      row says exactly the outcome asked for, archived once; and the same release again is acknowledged. */
  lemma ReleaseMeans(cfg: Config, db: Ledger, id: nat, epoch: int, outcome: Phase, now: int)
    ensures
      var r := Called(cfg, db, id, Release(epoch, outcome), now);
      && (r.answer == OK <==>
            && (outcome == Done || outcome == Failed) && id < |db.leases| && db.leases[id].epoch == epoch
            && (!Finished(db.leases[id]) || db.leases[id].phase == outcome))
      && (r.answer == OK && !Finished(db.leases[id]) ==> ClosedAs(db, r.db, id, db.leases[id].(phase := outcome)))
      && (r.answer != OK || Finished(db.leases[id]) ==> r.db == db)
      && (r.answer == OK ==> r.db.leases[id].phase == outcome && Called(cfg, r.db, id, Release(epoch, outcome), now) == r)
      && (r.answer == Fenced <==> (outcome == Done || outcome == Failed) && id < |db.leases| && db.leases[id].epoch != epoch)
      && (r.answer == Conflict <==> (outcome == Done || outcome == Failed) && id < |db.leases| && db.leases[id].epoch == epoch &&
                                    Finished(db.leases[id]) && db.leases[id].phase != outcome)
  {
    hide AssignEffect, BindEffect, AdvanceEffect, HeartbeatEffect, MarkFailureEffect, ReleaseFailedEffect, ForceTerminateEffect,
      ForceReleaseEffect, ResolveEffect, ResolveFailedEffect, SettleCompletionEffect, Archived, Amended, ClosedAs;
    if id < |db.leases| {
      ArchivedIsClosedAs(db, id, db.leases[id].(phase := outcome));
      ArchivedRow(db, id, db.leases[id].(phase := outcome), id);
      ArchivedRows(db, id, db.leases[id].(phase := outcome));
    }
  }

  lemma ArchivedRows(db: Ledger, id: nat, l: Lease)
    requires id < |db.leases|
    ensures |Archived(db, id, l).leases| == |db.leases|
  {
  }

  /** Failing a lease says why, unless something already did: the row and its one history entry carry the earlier
      reason where there was one and the caller's otherwise; a lease already failed unexplained is explained. */
  lemma ReleaseFailedMeans(cfg: Config, db: Ledger, id: nat, epoch: int, reason: string, now: int)
    ensures
      var r := Called(cfg, db, id, ReleaseFailed(epoch, reason), now);
      && (r.answer == OK <==> MayGive(reason) && id < |db.leases| && db.leases[id].epoch == epoch && db.leases[id].phase != Done)
      && (r.answer == OK ==>
            var l := db.leases[id];
            var said := l.(phase := Failed, failureReason := if l.failureReason == "" then reason else l.failureReason);
            && id < |r.db.leases| && r.db.leases[id] == said
            && (if l.phase != Failed then ClosedAs(db, r.db, id, said)
                else if l.failureReason == "" then CorrectedAs(db, r.db, id, said) else r.db == db))
      && (r.answer != OK ==> r.db == db)
  {
    hide AssignEffect, BindEffect, AdvanceEffect, HeartbeatEffect, MarkFailureEffect, ReleaseEffect, ForceTerminateEffect,
      ForceReleaseEffect, ResolveEffect, ResolveFailedEffect, SettleCompletionEffect, Archived, ClosedAs;
    if id < |db.leases| {
      var said := Explained(db.leases[id], reason).(phase := Failed);
      ArchivedIsClosedAs(db, id, said);
      ArchivedRows(db, id, said);
      ArchivedRow(db, id, said, id);
    }
  }

  /** An operator's end of destroyed compute: only from assigned to busy, failed with its own reason kept, the fence
      moved; nothing left to end is as good; anything held or quarantined is refused. */
  lemma ForceTerminateMeans(cfg: Config, db: Ledger, id: nat, now: int)
    ensures
      var r := Called(cfg, db, id, ForceTerminate, now);
      && (r.answer == OK <==> id >= |db.leases| || db.leases[id].phase in {Assigned, Launching, Online, Busy, Done, Failed})
      && (r.answer != OK ==> r.answer == ForceHeld && r.db == db)
      && (r.answer == OK && id < |db.leases| && !Finished(db.leases[id]) ==>
            var l := db.leases[id];
            ClosedAs(db, r.db, id, l.(phase := Failed, epoch := l.epoch + 1,
                                      failureReason := if l.failureReason == "" then FORCE_DESTROYED else l.failureReason)))
      && (r.answer == OK && (id >= |db.leases| || Finished(db.leases[id])) ==> r.db == db)
  {
    hide AssignEffect, BindEffect, AdvanceEffect, HeartbeatEffect, MarkFailureEffect, ReleaseEffect, ReleaseFailedEffect,
      ForceReleaseEffect, ResolveEffect, ResolveFailedEffect, SettleCompletionEffect, Archived, Amended, ClosedAs, FORCE_DESTROYED;
    if id < |db.leases| {
      ArchivedIsClosedAs(db, id, Explained(db.leases[id], FORCE_DESTROYED).(phase := Failed, epoch := db.leases[id].epoch + 1));
    }
  }

  /** An operator's word that held compute is gone: a quarantine ends failed, custody and teardown are only asked. */
  lemma ForceReleaseMeans(cfg: Config, db: Ledger, id: nat, now: int)
    ensures
      var r := Called(cfg, db, id, ForceRelease, now);
      && (r.answer == OK <==> id < |db.leases| && db.leases[id].phase in {Quarantine, Custody, Teardown})
      && (r.answer != OK ==> r.db == db)
      && (r.answer == OK ==>
            var l := db.leases[id];
            var said := if l.failureReason == "" then l.(failureReason := FORCE_RELEASED) else l;
            if l.phase == Quarantine then ClosedAs(db, r.db, id, said.(phase := Failed, epoch := l.epoch + 1))
            else r.db == Rewritten(db, id, said.(forceRelease := true)))
  {
    hide AssignEffect, BindEffect, AdvanceEffect, HeartbeatEffect, MarkFailureEffect, ReleaseEffect, ReleaseFailedEffect,
      ForceTerminateEffect, ResolveEffect, ResolveFailedEffect, SettleCompletionEffect, Archived, Amended, ClosedAs, FORCE_RELEASED;
    if id < |db.leases| {
      ArchivedIsClosedAs(db, id, Explained(db.leases[id], FORCE_RELEASED).(phase := Failed, epoch := db.leases[id].epoch + 1));
    }
  }

  /** Resolving ends exactly a quarantined lease, exactly as asked, and moves its fence. */
  lemma ResolveMeans(cfg: Config, db: Ledger, id: nat, outcome: Phase, now: int)
    ensures
      var r := Called(cfg, db, id, ResolveQuarantine(outcome), now);
      && (r.answer == OK <==> (outcome == Done || outcome == Failed) && id < |db.leases| && db.leases[id].phase == Quarantine)
      && (r.answer == OK ==> ClosedAs(db, r.db, id, db.leases[id].(phase := outcome, epoch := db.leases[id].epoch + 1)))
      && (r.answer != OK ==> r.db == db)
  {
    hide AssignEffect, BindEffect, AdvanceEffect, HeartbeatEffect, MarkFailureEffect, ReleaseEffect, ReleaseFailedEffect,
      ForceTerminateEffect, ForceReleaseEffect, ResolveFailedEffect, SettleCompletionEffect, Archived, Amended, ClosedAs;
    if id < |db.leases| {
      ArchivedIsClosedAs(db, id, db.leases[id].(phase := outcome, epoch := db.leases[id].epoch + 1));
    }
  }

  lemma ResolveFailedMeans(cfg: Config, db: Ledger, id: nat, reason: string, now: int)
    ensures
      var r := Called(cfg, db, id, ResolveQuarantineFailed(reason), now);
      && (r.answer == OK <==> MayGive(reason) && id < |db.leases| && db.leases[id].phase in {Quarantine, Failed})
      && (r.answer == OK ==>
            var l := db.leases[id];
            var said := if l.failureReason == "" then l.(failureReason := reason) else l;
            if l.phase == Quarantine then ClosedAs(db, r.db, id, said.(phase := Failed, epoch := l.epoch + 1))
            else if l.failureReason == "" then CorrectedAs(db, r.db, id, said) else r.db == db)
      && (r.answer != OK ==> r.db == db)
  {
    hide AssignEffect, BindEffect, AdvanceEffect, HeartbeatEffect, MarkFailureEffect, ReleaseEffect, ReleaseFailedEffect,
      ForceTerminateEffect, ForceReleaseEffect, ResolveEffect, SettleCompletionEffect, Archived, ClosedAs;
    if id < |db.leases| {
      ArchivedIsClosedAs(db, id, Explained(db.leases[id], reason).(phase := Failed, epoch := db.leases[id].epoch + 1));
    }
  }

  /** A completion rewrites a finished lease exactly when its verdict is the provisional one and its epoch not behind
      the caller's: then the row and its entry say the outcome, and no reason. */
  lemma SettleCompletionMeans(cfg: Config, db: Ledger, id: nat, epoch: int, outcome: Phase, now: int)
    ensures
      var r := Called(cfg, db, id, SettleCompletion(epoch, outcome), now);
      && (r.answer == OK <==> outcome == Done || outcome == Failed)
      && (if r.answer == OK && id < |db.leases| && Finished(db.leases[id]) && db.leases[id].epoch >= epoch &&
             db.leases[id].failureReason == PROVISIONAL
          then CorrectedAs(db, r.db, id, db.leases[id].(phase := outcome, failureReason := ""))
          else r.db == db)
  {
    hide AssignEffect, BindEffect, AdvanceEffect, HeartbeatEffect, MarkFailureEffect, ReleaseEffect, ReleaseFailedEffect,
      ForceTerminateEffect, ForceReleaseEffect, ResolveEffect, ResolveFailedEffect, Archived, PROVISIONAL;
  }

  // ---- Moving a lease ----

  /** An assignment is accepted from capacity, or repeated for the same job: the row then records exactly that job. */
  lemma AssignMeans(cfg: Config, db: Ledger, id: nat, epoch: int, run: int, request: int, now: int)
    ensures
      var r := Called(cfg, db, id, Assign(epoch, run, request), now);
      && (r.answer == OK <==>
            && id < |db.leases| && db.leases[id].epoch == epoch
            && (db.leases[id].phase == Capacity ||
                (db.leases[id].phase == Assigned && db.leases[id].run == run && db.leases[id].request == request)))
      && (r.answer == OK && db.leases[id].phase == Capacity ==>
            r.db == Rewritten(db, id, db.leases[id].(phase := Assigned, run := run, request := request, expiresAt := now + cfg.leaseTTL)))
      && (r.answer != OK || db.leases[id].phase != Capacity ==> r.db == db)
      && (r.answer == OK ==> Called(cfg, r.db, id, Assign(epoch, run, request), now) == r)
  {
    hide BindEffect, AdvanceEffect, HeartbeatEffect, MarkFailureEffect, ReleaseEffect, ReleaseFailedEffect,
      ForceTerminateEffect, ForceReleaseEffect, ResolveEffect, ResolveFailedEffect, SettleCompletionEffect, Archived, Amended;
  }

  /** A move is accepted along the table, or repeated, with placement legal wherever a host is presumed running: the
      row is then in exactly that phase, renewed if it moved, and archived if it ended. */
  lemma AdvanceMeans(cfg: Config, db: Ledger, id: nat, epoch: int, to: Phase, now: int)
    ensures
      var r := Called(cfg, db, id, Advance(epoch, to), now);
      && (r.answer == OK <==>
            && id < |db.leases| && db.leases[id].epoch == epoch && !Finished(db.leases[id])
            && (db.leases[id].phase == to || CanMoveTo(db.leases[id].phase, to))
            && (to in {Launching, Online, Busy} ==> db.leases[id].node != "" && CheckPlacement(cfg, db.nodes, db.leases[id], db.leases[id].node) == OK))
      && (r.answer != OK ==> r.db == db)
      && (r.answer == OK ==>
            var l := db.leases[id];
            var moved := l.(phase := to, expiresAt := now + cfg.leaseTTL);
            if l.phase == to then r.db == db
            else if to == Done || to == Failed then ClosedAs(db, r.db, id, moved)
            else r.db == Rewritten(db, id, moved))
  {
    hide AssignEffect, BindEffect, HeartbeatEffect, MarkFailureEffect, ReleaseEffect, ReleaseFailedEffect,
      ForceTerminateEffect, ForceReleaseEffect, ResolveEffect, ResolveFailedEffect, SettleCompletionEffect, Archived, Amended, ClosedAs, CheckPlacement, Successors;
    if id < |db.leases| {
      ArchivedIsClosedAs(db, id, db.leases[id].(phase := to, expiresAt := now + cfg.leaseTTL));
      TableIsAcyclic(db.leases[id].phase, to);
    }
  }

  /** Whether a host may run a lease: registered, permitting its guest, on a backend the lease accepts. */
  lemma CheckPlacementMeans(cfg: Config, nodes: seq<Node>, l: Lease, node: Host)
    ensures CheckPlacement(cfg, nodes, l, node) == OK <==>
      && (node in cfg.policies && cfg.policies[node].guestOS != [] ==> l.guestOS in cfg.policies[node].guestOS)
      && NodeNamed(nodes, node).Some? && NodeNamed(nodes, node).value.provider in l.providers
  {
    hide NodeNamed;
  }

  /** A binding is accepted to the host the lease is pinned to, before it runs, where the host may run it, or repeated:
      the row then names that host and the backend it registered. */
  lemma BindMeans(cfg: Config, db: Ledger, id: nat, epoch: int, node: Host, now: int)
    ensures
      var r := Called(cfg, db, id, Bind(epoch, node), now);
      && (r.answer == OK <==>
            && node != "" && id < |db.leases| && db.leases[id].epoch == epoch && !Finished(db.leases[id])
            && (db.leases[id].target == "" || db.leases[id].target == node)
            && (db.leases[id].node == node ||
                (db.leases[id].node == "" && db.leases[id].phase !in {Launching, Online, Busy} &&
                 CheckPlacement(cfg, db.nodes, db.leases[id], node) == OK)))
      && (r.answer == OK && db.leases[id].node != node ==>
            NodeNamed(db.nodes, node).Some? &&
            r.db == Rewritten(db, id, db.leases[id].(node := node, provider := Some(NodeNamed(db.nodes, node).value.provider))))
      && (r.answer != OK || db.leases[id].node == node ==> r.db == db)
  {
    hide AssignEffect, AdvanceEffect, HeartbeatEffect, MarkFailureEffect, ReleaseEffect, ReleaseFailedEffect,
      ForceTerminateEffect, ForceReleaseEffect, ResolveEffect, ResolveFailedEffect, SettleCompletionEffect, Archived, Amended, CheckPlacement, NodeNamed;
    if id < |db.leases| {
      PlacedIsRegistered(cfg, db.nodes, db.leases[id], node);
    }
  }

  /** A renewal is accepted for an open lease nobody asked to be released, and moves its expiry and nothing else. */
  lemma HeartbeatMeans(cfg: Config, db: Ledger, id: nat, epoch: int, now: int)
    ensures
      var r := Called(cfg, db, id, Heartbeat(epoch), now);
      && (r.answer == OK <==> id < |db.leases| && db.leases[id].epoch == epoch && !Finished(db.leases[id]) && !db.leases[id].forceRelease)
      && (r.answer == OK ==> r.db == Rewritten(db, id, db.leases[id].(expiresAt := now + cfg.leaseTTL)))
      && (r.answer != OK ==> r.db == db)
      && (r.answer == ReleaseRequested <==>
            id < |db.leases| && db.leases[id].epoch == epoch && !Finished(db.leases[id]) && db.leases[id].forceRelease)
      && (r.answer == Fenced <==> id < |db.leases| && db.leases[id].epoch != epoch)
  {
    hide AssignEffect, BindEffect, AdvanceEffect, MarkFailureEffect, ReleaseEffect, ReleaseFailedEffect, ForceTerminateEffect,
      ForceReleaseEffect, ResolveEffect, ResolveFailedEffect, SettleCompletionEffect, Archived, Amended;
  }

  /** A reason is recorded once: only the same one may be recorded again. */
  lemma MarkFailureMeans(cfg: Config, db: Ledger, id: nat, epoch: int, reason: string, now: int)
    ensures
      var r := Called(cfg, db, id, MarkFailure(epoch, reason), now);
      && (r.answer == OK <==>
            && MayGive(reason) && id < |db.leases| && db.leases[id].epoch == epoch && !Finished(db.leases[id])
            && (db.leases[id].failureReason == "" || db.leases[id].failureReason == reason))
      && (r.answer == OK ==> r.db == Rewritten(db, id, db.leases[id].(failureReason := reason)))
      && (r.answer != OK ==> r.db == db)
  {
    hide AssignEffect, BindEffect, AdvanceEffect, HeartbeatEffect, ReleaseEffect, ReleaseFailedEffect, ForceTerminateEffect,
      ForceReleaseEffect, ResolveEffect, ResolveFailedEffect, SettleCompletionEffect, Archived, Amended;
  }

  // ---- The reaper and the inventory ----

  /** A reclaim moves the fence; a lease past assignment is quarantined with its charge, one before it fails. */
  lemma ReclaimedMeans(l: Lease)
    requires !Finished(l) && l.phase != Quarantine
    ensures Reclaimed(l) == l.(epoch := l.epoch + 1, phase := if l.phase == Capacity || l.phase == Assigned then Failed else Quarantine)
  {
  }

  /** Which rows the scan may take: expired, and neither finished nor quarantined. */
  lemma ReapableMeans(l: Lease, now: int)
    ensures Reapable(l, now) <==> l.expiresAt <= now && l.phase in {Capacity, Assigned, Launching, Online, Busy, Custody, Teardown}
  {
  }

  /** A guest an inventory no longer lists: done if its completion was recorded and nothing explained a failure, failed
      with the reason there was, and otherwise failed provisionally. */
  lemma AbsentMeans(l: Lease, completed: bool)
    ensures Absent(l, completed) == l.(
      epoch := l.epoch + 1,
      phase := if l.failureReason == "" && completed then Done else Failed,
      failureReason := if l.failureReason == "" && !completed then PROVISIONAL else l.failureReason)
  {
    hide PROVISIONAL;
  }

  lemma SettleableMeans(l: Lease, node: Host, now: int)
    ensures Settleable(l, node, now) <==>
      l.phase == Quarantine && (if l.node != "" then l.node else l.target) == node && now - l.expiresAt > 300_000_000_000
  {
  }
}

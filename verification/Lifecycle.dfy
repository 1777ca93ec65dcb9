/**
 What every lease call keeps: a phase moves only along the acyclic table, a
 closed lease stays closed and is archived exactly once, and the fence only
 moves forward.
 */
module Lifecycle {
  import opened Placement
  import opened Catalogue
  import opened LedgerState
  import opened Leases

  /** The table has no cycle: every listed move goes up, and what has finished goes nowhere. Work is taken up one step
      at a time, a hold is entered from any phase with compute before it, and every open lease may end. */
  lemma TableIsAcyclic(p: Phase, q: Phase)
    ensures CanMoveTo(p, q) ==> Rank(p) < Rank(q)
    ensures p.Terminal() <==> Successors(p) == []
    ensures !p.Terminal() ==> CanMoveTo(p, Done) && CanMoveTo(p, Failed)
  {
  }

  /** Exactly which moves there are: work goes one step at a time from capacity to busy, what may be running may be
      held, torn down or quarantined, and nothing returns to capacity. */
  lemma TableIsExact(p: Phase, q: Phase)
    ensures q in {Assigned, Launching, Online, Busy} ==> (CanMoveTo(p, q) <==> Rank(q) == Rank(p) + 1)
    ensures q in {Custody, Teardown, Quarantine} ==> (CanMoveTo(p, q) <==> Rank(Launching) <= Rank(p) < Rank(q))
    ensures !CanMoveTo(p, Capacity)
  {
  }

  /** One transaction's change of one row: same lease, fence not moved back, and its phase kept, moved
      along one edge of the table, or, for a provisional verdict alone, corrected. */
  predicate LawfulRow(a: Lease, b: Lease)
  {
    && SameLease(a, b) && a.epoch <= b.epoch
    && (a.phase == b.phase || CanMoveTo(a.phase, b.phase) || Corrected(a, b))
    && (a.phase.Terminal() ==> b == a.(phase := b.phase, failureReason := b.failureReason))
    && (a.phase.Terminal() && a.failureReason != PROVISIONAL ==> b.phase == a.phase && b.failureReason != PROVISIONAL)
  }

  predicate SameLease(a: Lease, b: Lease)
  {
    && a.tier == b.tier && a.target == b.target && a.macOSSlot == b.macOSSlot && a.guestOS == b.guestOS
    && a.requestedVCPU == b.requestedVCPU && a.requestedMemory == b.requestedMemory
    && (a.node != "" ==> b.node == a.node)
    && (a.node == "" && a.target != "" ==> b.node == "" || b.node == a.target)
  }

  predicate SameCharge(a: Lease, b: Lease) { a.vcpu == b.vcpu && a.memory == b.memory }

  /** Inventory's verdict, replaced by GitHub's own. */
  predicate Corrected(a: Lease, b: Lease)
  {
    a.phase == Failed && a.failureReason == PROVISIONAL && b.phase.Terminal() && b.failureReason == ""
  }

  predicate ProvisionalIsFailed(l: Lease) { l.failureReason == PROVISIONAL ==> l.phase == Failed }

  predicate LawfulEffect(l: Lease, e: Effect)
  {
    match e
    case Refuse(why) => why != OK
    case Keep => true
    case Write(b) => LawfulRow(l, b) && SameCharge(l, b) && Open(l) && Open(b) && ProvisionalIsFailed(b)
    case Shut(b) => LawfulRow(l, b) && SameCharge(l, b) && Open(l) && !Open(b) && ProvisionalIsFailed(b)
    case Amend(b) => LawfulRow(l, b) && SameCharge(l, b) && !Open(l) && !Open(b) && ProvisionalIsFailed(b)
  }

  lemma AdvancesAreLawful(cfg: Config, nodes: seq<Node>, l: Lease, to: Phase, expiresAt: int)
    requires Open(l) && ProvisionalIsFailed(l)
    ensures LawfulEffect(l, AdvanceEffect(cfg, nodes, l, to, expiresAt))
  {
    hide CheckPlacement, PROVISIONAL, Successors, RequiresPlacement;
  }

  lemma BindsAreLawful(cfg: Config, nodes: seq<Node>, l: Lease, node: Host)
    requires Open(l) && ProvisionalIsFailed(l) && node != ""
    ensures LawfulEffect(l, BindEffect(cfg, nodes, l, node))
  {
    hide CheckPlacement, NodeNamed, PROVISIONAL, Successors, RequiresPlacement;
    PlacedIsRegistered(cfg, nodes, l, node);
  }

  lemma PlacedIsRegistered(cfg: Config, nodes: seq<Node>, l: Lease, node: Host)
    ensures CheckPlacement(cfg, nodes, l, node) == OK ==> NodeNamed(nodes, node).Some?
  {
    hide NodeNamed, AllowsGuestOS;
  }

  lemma MarksAreLawful(l: Lease, run: int, request: int, reason: string, expiresAt: int)
    requires Open(l) && ProvisionalIsFailed(l)
    ensures LawfulEffect(l, AssignEffect(l, run, request, expiresAt)) && LawfulEffect(l, HeartbeatEffect(l, expiresAt))
    ensures !Reserved(reason) ==> LawfulEffect(l, MarkFailureEffect(l, reason))
  {
    hide PROVISIONAL, FORCE_RELEASED;
  }

  lemma HolderCallsAreLawful(cfg: Config, nodes: seq<Node>, l: Lease, call: Call, now: int)
    requires Open(l) && ProvisionalIsFailed(l) && !Malformed(call)
    requires call.Assign? || call.Bind? || call.Advance? || call.Heartbeat? || call.MarkFailure?
    ensures LawfulEffect(l, EffectOn(cfg, nodes, l, call, now))
  {
    hide LawfulEffect, AssignEffect, BindEffect, AdvanceEffect, HeartbeatEffect, MarkFailureEffect, Reserved;
    var expiresAt := now + cfg.leaseTTL;
    match call
    case Assign(_, run, request) => MarksAreLawful(l, run, request, "", expiresAt);
    case Heartbeat(_) => MarksAreLawful(l, 0, 0, "", expiresAt);
    case MarkFailure(_, reason) => MarksAreLawful(l, 0, 0, reason, expiresAt);
    case Advance(_, to) => AdvancesAreLawful(cfg, nodes, l, to, expiresAt);
    case Bind(_, node) => BindsAreLawful(cfg, nodes, l, node);
    case _ =>
  }

  lemma ReasonsDiffer()
    ensures PROVISIONAL != "" && FORCE_DESTROYED != "" && FORCE_RELEASED != ""
    ensures PROVISIONAL != FORCE_DESTROYED && PROVISIONAL != FORCE_RELEASED
  {
    assert |PROVISIONAL| != |FORCE_DESTROYED| && |PROVISIONAL| != |FORCE_RELEASED|;
  }

  lemma ReleasesAreLawful(l: Lease, outcome: Phase, reason: string)
    requires ProvisionalIsFailed(l)
    ensures outcome.Terminal() ==> LawfulEffect(l, ReleaseEffect(l, outcome))
    ensures !Reserved(reason) ==> LawfulEffect(l, ReleaseFailedEffect(l, reason))
  {
    hide PROVISIONAL, FORCE_DESTROYED, FORCE_RELEASED;
    ReasonsDiffer();
  }

  lemma ForcedAreLawful(l: Lease)
    requires ProvisionalIsFailed(l)
    ensures LawfulEffect(l, ForceTerminateEffect(l)) && LawfulEffect(l, ForceReleaseEffect(l))
  {
    hide PROVISIONAL, FORCE_DESTROYED, FORCE_RELEASED;
    ReasonsDiffer();
  }

  lemma ResolutionsAreLawful(cfg: Config, nodes: seq<Node>, l: Lease, call: Call, now: int)
    requires ProvisionalIsFailed(l) && !Malformed(call)
    requires call.ResolveQuarantine? || call.ResolveQuarantineFailed? || call.SettleCompletion?
    ensures LawfulEffect(l, EffectOn(cfg, nodes, l, call, now))
  {
    hide AssignEffect, BindEffect, AdvanceEffect, HeartbeatEffect, MarkFailureEffect, ReleaseEffect, ReleaseFailedEffect,
      ForceTerminateEffect, ForceReleaseEffect, PROVISIONAL, FORCE_DESTROYED, FORCE_RELEASED;
    ReasonsDiffer();
  }

  lemma EndingCallsAreLawful(cfg: Config, nodes: seq<Node>, l: Lease, call: Call, now: int)
    requires ProvisionalIsFailed(l) && !Malformed(call)
    requires call.Release? || call.ReleaseFailed? || call.ForceTerminate? || call.ForceRelease?
    ensures LawfulEffect(l, EffectOn(cfg, nodes, l, call, now))
  {
    hide LawfulEffect, ReleaseEffect, ReleaseFailedEffect, ForceTerminateEffect, ForceReleaseEffect, Reserved;
    ForcedAreLawful(l);
    match call
    case Release(_, outcome) => ReleasesAreLawful(l, outcome, "");
    case ReleaseFailed(_, reason) => ReleasesAreLawful(l, Failed, reason);
    case _ =>
  }

  /** Every call's effect on the row it names is lawful, and a call that names no row has none. */
  lemma CallsAreLawful(cfg: Config, db: Ledger, id: nat, call: Call, now: int)
    requires id < |db.leases| ==> ProvisionalIsFailed(db.leases[id])
    ensures
      var e := EffectOf(cfg, db, id, call, now);
      if id < |db.leases| then LawfulEffect(db.leases[id], e) else e.Refuse? || e.Keep?
  {
    hide LawfulRow, EffectOn, ProvisionalIsFailed, SameLease;
    if !Malformed(call) && Found(db, id, call) == OK {
      if call.Assign? || call.Bind? || call.Advance? || call.Heartbeat? || call.MarkFailure? {
        HolderCallsAreLawful(cfg, db.nodes, db.leases[id], call, now);
      } else if call.ResolveQuarantine? || call.ResolveQuarantineFailed? || call.SettleCompletion? {
        ResolutionsAreLawful(cfg, db.nodes, db.leases[id], call, now);
      } else {
        EndingCallsAreLawful(cfg, db.nodes, db.leases[id], call, now);
      }
    }
  }

  lemma ReclaimIsLawful(l: Lease)
    requires !l.phase.Terminal() && l.phase != Quarantine && ProvisionalIsFailed(l)
    ensures LawfulEffect(l, ReclaimEffect(l))
    ensures HadCompute(l.phase) ==> ReclaimEffect(l).Write?
  {
  }

  // ---- The books ----

  predicate Closed(l: Lease, tier: string) { l.tier == tier && l.phase.Terminal() }

  /** How many of a tier's leases have closed. */
  function ClosedIn(leases: seq<Lease>, tier: string): nat
  {
    if leases == [] then 0
    else ClosedIn(leases[..|leases| - 1], tier) + if Closed(leases[|leases| - 1], tier) then 1 else 0
  }

  /** Every closed lease has exactly one history entry, which says what its row says; no open lease has
      one; and a tier's release generation counts its closed leases. */
  ghost predicate Books(db: Ledger)
  {
    && (forall i :: 0 <= i < |db.history| ==> EntryIsTrue(db, db.history[i]))
    && (forall i, j :: 0 <= i < j < |db.history| ==> db.history[i].lease != db.history[j].lease)
    && (forall id: nat :: id < |db.leases| && !Open(db.leases[id]) ==> HasEntry(db, id))
    && (forall tier :: Releases(db.releases, tier) == ClosedIn(db.leases, tier))
    && (forall id: nat :: id < |db.leases| ==> ProvisionalIsFailed(db.leases[id]))
  }

  predicate EntryIsTrue(db: Ledger, c: Closing)
  {
    c.lease < |db.leases| && !Open(db.leases[c.lease]) && c == ClosingOf(c.lease, db.leases[c.lease])
  }

  predicate HasEntry(db: Ledger, id: nat)
  {
    exists i :: 0 <= i < |db.history| && db.history[i].lease == id
  }

  lemma {:induction false} ClosedInUpdate(leases: seq<Lease>, i: nat, b: Lease, tier: string)
    requires i < |leases|
    ensures ClosedIn(leases[i := b], tier) ==
      ClosedIn(leases, tier) - (if Closed(leases[i], tier) then 1 else 0) + (if Closed(b, tier) then 1 else 0)
  {
    var last := |leases| - 1;
    if i == last {
      assert leases[i := b][..last] == leases[..last];
    } else {
      assert leases[i := b][..last] == leases[..last][i := b];
      ClosedInUpdate(leases[..last], i, b, tier);
    }
  }

  lemma {:induction false} ClosedInAppend(leases: seq<Lease>, rows: seq<Lease>, tier: string)
    requires forall l :: l in rows ==> Open(l)
    ensures ClosedIn(leases + rows, tier) == ClosedIn(leases, tier)
  {
    if rows == [] {
      assert leases + rows == leases;
    } else {
      assert (leases + rows)[..|leases + rows| - 1] == leases + rows[..|rows| - 1];
      assert rows[|rows| - 1] in rows;
      ClosedInAppend(leases, rows[..|rows| - 1], tier);
    }
  }

  lemma WriteKeepsBooks(db: Ledger, id: nat, b: Lease)
    requires Books(db) && id < |db.leases| && LawfulEffect(db.leases[id], Write(b))
    ensures Books(Settle(db, id, Write(b)).db)
  {
    hide LawfulRow, ClosedIn;
    var after := Settle(db, id, Write(b)).db;
    forall tier ensures Releases(after.releases, tier) == ClosedIn(after.leases, tier) {
      ClosedInUpdate(db.leases, id, b, tier);
    }
    forall other: nat | other < |after.leases| && !Open(after.leases[other]) ensures HasEntry(after, other) {
      assert HasEntry(db, other);
    }
    forall i | 0 <= i < |after.history| ensures EntryIsTrue(after, after.history[i]) {
      assert EntryIsTrue(db, db.history[i]);
    }
  }

  lemma ShutCloses(l: Lease, b: Lease)
    requires LawfulEffect(l, Shut(b))
    ensures Open(l) && !Open(b) && b.tier == l.tier && ProvisionalIsFailed(b)
  {
  }

  lemma ShutKeepsBooks(db: Ledger, id: nat, b: Lease)
    requires Books(db) && id < |db.leases| && LawfulEffect(db.leases[id], Shut(b))
    ensures Books(Settle(db, id, Shut(b)).db)
  {
    hide ClosedIn, ClosingOf, LawfulEffect, ProvisionalIsFailed;
    ShutCloses(db.leases[id], b);
    var after := Settle(db, id, Shut(b)).db;
    forall tier ensures Releases(after.releases, tier) == ClosedIn(after.leases, tier) {
      ClosedInUpdate(db.leases, id, b, tier);
      assert Releases(db.releases, tier) == ClosedIn(db.leases, tier);
    }
    assert after.history[|db.history|] == ClosingOf(id, b);
    NamesItself(id, b);
    forall other: nat | other < |after.leases| && !Open(after.leases[other]) ensures HasEntry(after, other) {
      if other == id {
        assert after.history[|db.history|].lease == id;
      } else {
        assert HasEntry(db, other);
        var i :| 0 <= i < |db.history| && db.history[i].lease == other;
        assert after.history[i].lease == other;
      }
    }
    forall i | 0 <= i < |after.history| ensures EntryIsTrue(after, after.history[i]) {
      if i < |db.history| {
        assert EntryIsTrue(db, db.history[i]);
      }
    }
    forall i, j | 0 <= i < j < |after.history| ensures after.history[i].lease != after.history[j].lease {
      assert EntryIsTrue(db, db.history[i]);
    }
  }

  lemma NamesItself(id: nat, l: Lease)
    ensures ClosingOf(id, l).lease == id
  {
  }

  lemma AmendIsSmall(l: Lease, b: Lease)
    requires LawfulEffect(l, Amend(b))
    ensures !Open(l) && !Open(b) && ProvisionalIsFailed(b) && b == l.(phase := b.phase, failureReason := b.failureReason)
  {
  }

  lemma AmendKeepsBooks(db: Ledger, id: nat, b: Lease)
    requires Books(db) && id < |db.leases| && LawfulEffect(db.leases[id], Amend(b))
    ensures Books(Settle(db, id, Amend(b)).db)
  {
    hide ClosedIn, LawfulEffect, ProvisionalIsFailed;
    AmendIsSmall(db.leases[id], b);
    var after := Settle(db, id, Amend(b)).db;
    forall tier ensures Releases(after.releases, tier) == ClosedIn(after.leases, tier) {
      ClosedInUpdate(db.leases, id, b, tier);
    }
    forall other: nat | other < |after.leases| && !Open(after.leases[other]) ensures HasEntry(after, other) {
      assert HasEntry(db, other);
      var i :| 0 <= i < |db.history| && db.history[i].lease == other;
      assert after.history[i].lease == other;
    }
    AmendedEntries(db, id, b);
    forall i, j | 0 <= i < j < |after.history| ensures after.history[i].lease != after.history[j].lease {
      assert db.history[i].lease != db.history[j].lease;
    }
  }

  lemma AmendedEntries(db: Ledger, id: nat, b: Lease)
    requires id < |db.leases| && !Open(b) && b == db.leases[id].(phase := b.phase, failureReason := b.failureReason)
    requires forall i :: 0 <= i < |db.history| ==> EntryIsTrue(db, db.history[i])
    ensures
      var after := Settle(db, id, Amend(b)).db;
      forall i :: 0 <= i < |after.history| ==> EntryIsTrue(after, after.history[i])
  {
    var after := Settle(db, id, Amend(b)).db;
    forall i | 0 <= i < |after.history| ensures EntryIsTrue(after, after.history[i]) {
      assert EntryIsTrue(db, db.history[i]);
    }
  }

  /** A lawful effect keeps the books, whatever it is. */
  lemma SettleKeepsBooks(db: Ledger, id: nat, e: Effect)
    requires Books(db)
    requires if id < |db.leases| then LawfulEffect(db.leases[id], e) else e.Refuse? || e.Keep?
    ensures Books(Settle(db, id, e).db)
  {
    hide Books, LawfulRow;
    match e
    case Write(b) => WriteKeepsBooks(db, id, b);
    case Shut(b) => ShutKeepsBooks(db, id, b);
    case Amend(b) => AmendKeepsBooks(db, id, b);
    case _ =>
  }

  /** New rows are open, so the books stand. */
  lemma InsertKeepsBooks(db: Ledger, rows: seq<Lease>)
    requires Books(db) && forall l :: l in rows ==> Open(l) && ProvisionalIsFailed(l)
    ensures Books(db.(leases := db.leases + rows))
  {
    hide ClosedIn;
    var after := db.(leases := db.leases + rows);
    forall tier ensures Releases(after.releases, tier) == ClosedIn(after.leases, tier) {
      ClosedInAppend(db.leases, rows, tier);
    }
    forall id: nat | id < |after.leases| && !Open(after.leases[id]) ensures HasEntry(after, id) {
      assert id < |db.leases|;
      assert HasEntry(db, id);
    }
    forall i | 0 <= i < |after.history| ensures EntryIsTrue(after, after.history[i]) {
      assert EntryIsTrue(db, db.history[i]);
    }
    forall id: nat | id < |after.leases| ensures ProvisionalIsFailed(after.leases[id]) {
      if id >= |db.leases| {
        assert after.leases[id] in rows;
      }
    }
  }

  // ---- A batch reclaims each of its rows once ----

  function Reclaimed(l: Lease): Lease
  {
    match ReclaimEffect(l)
    case Write(b) => b
    case Shut(b) => b
  }

  /** Reclaiming a batch changes exactly the rows in it, each by its own reclaim. */
  lemma {:induction false} ReclaimAllRows(db: Ledger, ids: seq<nat>, id: nat)
    requires AreRows(db, ids) && Distinct(ids) && id < |db.leases|
    ensures ReclaimAll(db, ids).leases[id] == if id in ids then Reclaimed(db.leases[id]) else db.leases[id]
  {
    hide Archived;
    if ids != [] {
      var front, last := ids[..|ids| - 1], ids[|ids| - 1];
      assert ids == front + [last];
      assert last !in front;
      ReclaimAllRows(db, front, id);
      ReclaimAllRows(db, front, last);
      ArchivedRow(ReclaimAll(db, front), last, Reclaimed(db.leases[last]), id);
    }
  }

  lemma ArchivedRow(db: Ledger, id: nat, l: Lease, other: nat)
    requires id < |db.leases| && other < |db.leases|
    ensures Archived(db, id, l).leases[other] == if other == id then l else db.leases[other]
  {
  }

  lemma {:induction false} ReclaimKeepsBooks(db: Ledger, ids: seq<nat>)
    requires Books(db) && AreRows(db, ids) && Distinct(ids)
    requires forall i :: 0 <= i < |ids| ==> Open(db.leases[ids[i]]) && db.leases[ids[i]].phase != Quarantine
    ensures Books(ReclaimAll(db, ids))
  {
    hide Books, LawfulEffect, ReclaimEffect, Settle;
    if ids != [] {
      var front, last := ids[..|ids| - 1], ids[|ids| - 1];
      assert ids == front + [last] && last !in front;
      ReclaimKeepsBooks(db, front);
      ReclaimAllRows(db, front, last);
      var before := ReclaimAll(db, front);
      BooksRow(db, last);
      ReclaimIsLawful(before.leases[last]);
      SettleKeepsBooks(before, last, ReclaimEffect(before.leases[last]));
    }
  }

  lemma BooksRow(db: Ledger, id: nat)
    requires Books(db) && id < |db.leases|
    ensures ProvisionalIsFailed(db.leases[id])
  {
  }

  // ---- An inventory settles each row once ----

  lemma AbsentIsLawful(l: Lease, completed: bool)
    requires l.phase == Quarantine && ProvisionalIsFailed(l)
    ensures LawfulEffect(l, AbsentEffect(l, completed))
  {
  }

  function Absent(l: Lease, completed: bool): Lease
  {
    match AbsentEffect(l, completed)
    case Shut(b) => b
  }

  lemma {:induction false} AbsentRows(db: Ledger, node: Host, running: seq<nat>, completed: set<nat>, now: int, k: nat, id: nat)
    requires k <= |db.leases| && id < |db.leases|
    ensures AbsentUpTo(db, node, running, completed, now, k).leases[id] ==
      if id < k && Settleable(db.leases[id], node, now) && id !in running
      then Absent(db.leases[id], id in completed) else db.leases[id]
    decreases k
  {
    hide Archived, Settleable;
    if k > 0 {
      AbsentRows(db, node, running, completed, now, k - 1, id);
      AbsentRows(db, node, running, completed, now, k - 1, k - 1);
      ArchivedRow(AbsentUpTo(db, node, running, completed, now, k - 1), k - 1,
                  Absent(db.leases[k - 1], k - 1 in completed), id);
    }
  }

  lemma {:induction false} AbsentKeepsBooks(db: Ledger, node: Host, running: seq<nat>, completed: set<nat>, now: int, k: nat)
    requires Books(db) && k <= |db.leases|
    ensures Books(AbsentUpTo(db, node, running, completed, now, k))
  {
    hide Books, LawfulEffect, AbsentEffect, Settle;
    if k > 0 {
      AbsentKeepsBooks(db, node, running, completed, now, k - 1);
      var before := AbsentUpTo(db, node, running, completed, now, k - 1);
      BooksRow(before, k - 1);
      if Settleable(before.leases[k - 1], node, now) && k - 1 !in running {
        AbsentIsLawful(before.leases[k - 1], k - 1 in completed);
        SettleKeepsBooks(before, k - 1, AbsentEffect(before.leases[k - 1], k - 1 in completed));
      }
    }
  }
}

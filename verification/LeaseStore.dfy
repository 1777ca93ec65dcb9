/** The lease calls as they run: each reads its row in a transaction, refuses or rewrites it, and archives a close. */
module LeaseStore {
  import opened Placement
  import opened Catalogue
  import opened LedgerState
  import opened Leases
  import opened Sorting

  method SetRow(store: Store, id: nat, l: Lease)
    requires id < |store.db.leases|
    modifies store
    ensures store.db == old(store.db).(leases := old(store.db).leases[id := l])
  {
    store.db := store.db.(leases := store.db.leases[id := l]);
  }

  /** Copies a finished lease into the history and counts its close against its tier. */
  method Archive(store: Store, id: nat, l: Lease)
    requires id < |store.db.leases| && store.db.leases[id] == l
    modifies store
    ensures store.db == Archived(old(store.db), id, l)
  {
    store.db := store.db.(history := store.db.history + [ClosingOf(id, l)]);
    store.db := store.db.(releases := store.db.releases[l.tier := Releases(store.db.releases, l.tier) + 1]);
    assert store.db.leases == old(store.db).leases[id := l];
  }

  method Close(store: Store, id: nat, l: Lease)
    requires id < |store.db.leases|
    modifies store
    ensures store.db == Archived(old(store.db), id, l)
  {
    SetRow(store, id, l);
    Archive(store, id, l);
  }

  /** Corrects a closed row and its history entry together. */
  method Correct(store: Store, id: nat, l: Lease)
    requires id < |store.db.leases|
    modifies store
    ensures store.db == Settle(old(store.db), id, Amend(l)).db
  {
    SetRow(store, id, l);
    ghost var was := store.db.history;
    var out: seq<Closing> := [];
    for i := 0 to |store.db.history|
      invariant |out| == i && out == Amended(was, id, l)[..i]
    {
      var c := store.db.history[i];
      out := out + [if c.lease == id then c.(outcome := l.phase, reason := l.failureReason) else c];
    }
    store.db := store.db.(history := out);
  }

  /** Binds an escrowed lease to a job. */
  method AssignLease(cfg: Config, store: Store, id: nat, epoch: int, run: int, request: int, now: int) returns (answer: Answer)
    modifies store
    ensures Settled(answer, store.db) == Called(cfg, old(store.db), id, Assign(epoch, run, request), now)
  {
    answer := Load(store.db, id, epoch);
    if answer != OK {
      return;
    }
    var l := store.db.leases[id];
    if l.phase == Assigned {
      return if l.run != run || l.request != request then Conflict else OK;
    }
    if !CanMoveTo(l.phase, Assigned) {
      return BadTransition;
    }
    SetRow(store, id, l.(phase := Assigned, run := run, request := request, expiresAt := now + cfg.leaseTTL));
  }

  /** Records which host runs a lease, and the backend that host registered. */
  method BindLease(cfg: Config, store: Store, id: nat, epoch: int, node: Host, now: int) returns (answer: Answer)
    modifies store
    ensures Settled(answer, store.db) == Called(cfg, old(store.db), id, Bind(epoch, node), now)
  {
    hide AllowsGuestOS;
    if node == "" {
      return Invalid;
    }
    answer := Load(store.db, id, epoch);
    if answer != OK {
      return;
    }
    var l := store.db.leases[id];
    if l.target != "" && l.target != node {
      return WrongNode;
    }
    if l.node == node {
      return OK;
    }
    if l.node != "" || RequiresPlacement(l.phase) {
      return WrongNode;
    }
    answer := CheckPlacement(cfg, store.db.nodes, l, node);
    if answer != OK {
      return;
    }
    SetRow(store, id, l.(node := node, provider := Some(NodeNamed(store.db.nodes, node).value.provider)));
  }

  /** A fenced, table-checked phase change. */
  method AdvanceLease(cfg: Config, store: Store, id: nat, epoch: int, to: Phase, now: int) returns (answer: Answer)
    modifies store
    ensures Settled(answer, store.db) == Called(cfg, old(store.db), id, Advance(epoch, to), now)
  {
    hide CheckPlacement, Load, Archived, Amended, AssignEffect, BindEffect, HeartbeatEffect, MarkFailureEffect, ReleaseEffect,
      ReleaseFailedEffect, ForceTerminateEffect, ForceReleaseEffect, ResolveEffect, ResolveFailedEffect, SettleCompletionEffect;
    answer := Load(store.db, id, epoch);
    if answer != OK {
      return;
    }
    var l := store.db.leases[id];
    if l.phase != to && !CanMoveTo(l.phase, to) {
      return BadTransition;
    }
    if RequiresPlacement(to) {
      if l.node == "" {
        return NotPlaced;
      }
      answer := CheckPlacement(cfg, store.db.nodes, l, l.node);
      if answer != OK {
        return;
      }
    }
    if l.phase == to {
      return OK;
    }
    var moved := l.(phase := to, expiresAt := now + cfg.leaseTTL);
    if to.Terminal() {
      Close(store, id, moved);
    } else {
      SetRow(store, id, moved);
    }
  }

  /** Extends a lease's expiry. */
  method HeartbeatLease(cfg: Config, store: Store, id: nat, epoch: int, now: int) returns (answer: Answer)
    modifies store
    ensures Settled(answer, store.db) == Called(cfg, old(store.db), id, Heartbeat(epoch), now)
  {
    answer := Load(store.db, id, epoch);
    if answer != OK {
      return;
    }
    var l := store.db.leases[id];
    if l.forceRelease {
      return ReleaseRequested;
    }
    SetRow(store, id, l.(expiresAt := now + cfg.leaseTTL));
  }

  method MarkLeaseFailure(cfg: Config, store: Store, id: nat, epoch: int, reason: string, now: int) returns (answer: Answer)
    modifies store
    ensures Settled(answer, store.db) == Called(cfg, old(store.db), id, MarkFailure(epoch, reason), now)
  {
    if Reserved(reason) {
      return Invalid;
    }
    answer := Load(store.db, id, epoch);
    if answer != OK {
      return;
    }
    var l := store.db.leases[id];
    if l.failureReason != "" && l.failureReason != reason {
      return Conflict;
    }
    SetRow(store, id, l.(failureReason := reason));
  }

  /** Ends a lease and returns its capacity; the same outcome again is acknowledged. */
  method ReleaseLease(cfg: Config, store: Store, id: nat, epoch: int, outcome: Phase, now: int) returns (answer: Answer)
    modifies store
    ensures Settled(answer, store.db) == Called(cfg, old(store.db), id, Release(epoch, outcome), now)
  {
    if !outcome.Terminal() {
      return BadTransition;
    }
    answer := LoadAny(store.db, id, epoch);
    if answer != OK {
      return;
    }
    var l := store.db.leases[id];
    if l.phase.Terminal() {
      return if l.phase != outcome then Conflict else OK;
    }
    Close(store, id, l.(phase := outcome));
  }

  /** Ends a lease as failed and says why, unless something already did. */
  method ReleaseLeaseFailed(cfg: Config, store: Store, id: nat, epoch: int, reason: string, now: int) returns (answer: Answer)
    modifies store
    ensures Settled(answer, store.db) == Called(cfg, old(store.db), id, ReleaseFailed(epoch, reason), now)
  {
    if Reserved(reason) {
      return Invalid;
    }
    answer := LoadAny(store.db, id, epoch);
    if answer != OK {
      return;
    }
    var l := store.db.leases[id];
    if l.phase.Terminal() {
      if l.phase != Failed {
        return Conflict;
      }
      if l.failureReason == "" {
        Correct(store, id, l.(failureReason := reason));
      }
      return OK;
    }
    if l.failureReason == "" {
      l := l.(failureReason := reason);
    }
    Close(store, id, l.(phase := Failed));
  }

  /** Archives a lease whose compute an operator destroyed, unless it found or lost a holder meanwhile. */
  method TerminateForced(cfg: Config, store: Store, id: nat, now: int) returns (answer: Answer)
    modifies store
    ensures Settled(answer, store.db) == Called(cfg, old(store.db), id, ForceTerminate, now)
  {
    if id >= |store.db.leases| {
      return OK;
    }
    var l := store.db.leases[id];
    if l.phase.Terminal() {
      return OK;
    }
    if l.phase !in [Assigned, Launching, Online, Busy] {
      return ForceHeld;
    }
    if l.failureReason == "" {
      l := l.(failureReason := FORCE_DESTROYED);
    }
    Close(store, id, l.(phase := Failed, epoch := l.epoch + 1));
    return OK;
  }

  /** Records an operator's assertion that held compute is gone. */
  method ReleaseForced(cfg: Config, store: Store, id: nat, now: int) returns (answer: Answer)
    modifies store
    ensures Settled(answer, store.db) == Called(cfg, old(store.db), id, ForceRelease, now)
  {
    if id >= |store.db.leases| {
      return NotFound;
    }
    var l := store.db.leases[id];
    if l.phase !in [Quarantine, Custody, Teardown] {
      return BadTransition;
    }
    if l.failureReason == "" {
      l := l.(failureReason := FORCE_RELEASED);
    }
    if l.phase == Quarantine {
      Close(store, id, l.(phase := Failed, epoch := l.epoch + 1));
    } else {
      SetRow(store, id, l.(forceRelease := true));
    }
    return OK;
  }

  /** Ends a quarantined lease with the caller's outcome. */
  method ResolveQuarantined(cfg: Config, store: Store, id: nat, outcome: Phase, now: int) returns (answer: Answer)
    modifies store
    ensures Settled(answer, store.db) == Called(cfg, old(store.db), id, ResolveQuarantine(outcome), now)
  {
    if !outcome.Terminal() {
      return BadTransition;
    }
    if id >= |store.db.leases| || store.db.leases[id].phase != Quarantine {
      return NotFound;
    }
    var l := store.db.leases[id];
    Close(store, id, l.(phase := outcome, epoch := l.epoch + 1));
    return OK;
  }

  method ResolveQuarantinedFailed(cfg: Config, store: Store, id: nat, reason: string, now: int) returns (answer: Answer)
    modifies store
    ensures Settled(answer, store.db) == Called(cfg, old(store.db), id, ResolveQuarantineFailed(reason), now)
  {
    if Reserved(reason) {
      return Invalid;
    }
    if id >= |store.db.leases| {
      return NotFound;
    }
    var l := store.db.leases[id];
    if l.phase == Failed {
      if l.failureReason == "" {
        Correct(store, id, l.(failureReason := reason));
      }
      return OK;
    }
    if l.phase != Quarantine {
      return NotFound;
    }
    if l.failureReason == "" {
      l := l.(failureReason := reason);
    }
    Close(store, id, l.(phase := Failed, epoch := l.epoch + 1));
    return OK;
  }

  /** Records GitHub's outcome against a lease something else already settled. */
  method SettleCompletionOnTerminal(cfg: Config, store: Store, id: nat, epoch: int, outcome: Phase, now: int)
    returns (answer: Answer)
    modifies store
    ensures Settled(answer, store.db) == Called(cfg, old(store.db), id, SettleCompletion(epoch, outcome), now)
  {
    if !outcome.Terminal() {
      return BadTransition;
    }
    if id >= |store.db.leases| {
      return OK;
    }
    var l := store.db.leases[id];
    if l.epoch >= epoch && l.phase.Terminal() && l.failureReason == PROVISIONAL {
      Correct(store, id, l.(phase := outcome, failureReason := ""));
    }
    return OK;
  }

  // ---- The reaper ----

  /** The ids of expired rows, in table order. */
  method ExpiredIds(db: Ledger, now: int) returns (ids: seq<nat>)
    ensures AreRows(db, ids) && Distinct(ids)
    ensures forall id: nat :: id in ids <==> id < |db.leases| && Reapable(db.leases[id], now)
  {
    ids := [];
    for i := 0 to |db.leases|
      invariant Distinct(ids) && forall id: nat :: id in ids <==> id < i && Reapable(db.leases[id], now)
    {
      if Reapable(db.leases[i], now) {
        ids := ids + [i];
      }
    }
    forall i | 0 <= i < |ids| ensures ids[i] < |db.leases| {
      assert ids[i] in ids;
    }
  }

  /** The leases whose holders stopped heartbeating, longest expired first, one batch of them. */
  method ReadExpired(db: Ledger, now: int) returns (ids: seq<nat>)
    ensures ExpiredScan(db, now, ids)
  {
    hide StableSort, ExpiredScan;
    var all := ExpiredIds(db, now);
    var key := (id: nat) => if id < |db.leases| then db.leases[id].expiresAt else 0;
    ids := StableSort(all, key);
    SortAscends(all, key);
    SortKeepsMembers(all, key);
    SortKeepsDistinct(all, key);
    forall i | 0 <= i < |ids| ensures ids[i] < |db.leases| && Reapable(db.leases[ids[i]], now) {
      assert ids[i] in all;
    }
    assert AreRows(db, ids);
    ScanIsPrefix(db, now, ids, Min(|ids|, REAP_BATCH));
    ids := ids[..Min(|ids|, REAP_BATCH)];
  }

  /** The first batch of every expired row in expiry order is a scan. */
  lemma ScanIsPrefix(db: Ledger, now: int, sorted: seq<nat>, k: nat)
    requires AreRows(db, sorted) && Distinct(sorted) && k == Min(|sorted|, REAP_BATCH)
    requires forall i :: 0 <= i < |sorted| ==> Reapable(db.leases[sorted[i]], now)
    requires forall id: nat :: id < |db.leases| && Reapable(db.leases[id], now) ==> id in sorted
    requires forall i, j :: 0 <= i < j < |sorted| ==> db.leases[sorted[i]].expiresAt <= db.leases[sorted[j]].expiresAt
    ensures ExpiredScan(db, now, sorted[..k])
  {
    hide Reapable;
    var ids := sorted[..k];
    forall i | 0 <= i < k ensures sorted[i] in ids {
      assert ids[i] == sorted[i];
    }
    forall id: nat | id < |db.leases| && Reapable(db.leases[id], now) && id !in ids
      ensures |ids| == REAP_BATCH && forall i :: 0 <= i < |ids| ==> db.leases[ids[i]].expiresAt <= db.leases[id].expiresAt
    {
      var j :| 0 <= j < |sorted| && sorted[j] == id;
      assert j >= k;
    }
  }

  lemma {:induction false} CountOfDistinct<T>(s: seq<T>, x: T)
    requires Distinct(s)
    ensures multiset(s)[x] <= 1
  {
    if s != [] {
      var front, last := s[..|s| - 1], s[|s| - 1];
      assert s == front + [last];
      CountOfDistinct(front, x);
      if x == last {
        assert x !in front;
        assert x !in multiset(front);
      }
    }
  }

  lemma SortKeepsDistinct<T>(s: seq<T>, key: T -> int)
    requires Distinct(s)
    ensures Distinct(StableSort(s, key))
  {
    hide StableSort;
    var t := StableSort(s, key);
    forall i, j | 0 <= i < j < |t| ensures t[i] != t[j] {
      CountOfDistinct(s, t[i]);
      if t[i] == t[j] {
        CountOfPair(t, i, j);
      }
    }
  }

  lemma CountOfPair<T>(t: seq<T>, i: nat, j: nat)
    requires i < j < |t| && t[i] == t[j]
    ensures multiset(t)[t[i]] >= 2
  {
    assert t == t[..j] + [t[j]] + t[j + 1..];
    assert t[i] in t[..j];
  }

  /** Reclaims one batch of expired leases, bumping each fence: what may have compute is quarantined. */
  method Reap(store: Store, now: int) returns (reaped: nat, quarantined: nat, ghost ids: seq<nat>)
    modifies store
    ensures ExpiredScan(old(store.db), now, ids) && AreRows(old(store.db), ids)
    ensures store.db == ReclaimAll(old(store.db), ids) && reaped + quarantined == |ids|
  {
    hide ExpiredScan, Archived;
    var expired := ReadExpired(store.db, now);
    ids := expired;
    ScanIsRows(store.db, now, ids);
    reaped, quarantined := 0, 0;
    ghost var db := store.db;
    for i := 0 to |expired|
      invariant store.db == ReclaimAll(db, expired[..i]) && reaped + quarantined == i
    {
      assert expired[..i + 1][..i] == expired[..i];
      var id := expired[i];
      var l := store.db.leases[id];
      if HadCompute(l.phase) {
        SetRow(store, id, l.(phase := Quarantine, epoch := l.epoch + 1));
        quarantined := quarantined + 1;
      } else {
        Close(store, id, l.(phase := Failed, epoch := l.epoch + 1));
        reaped := reaped + 1;
      }
    }
    assert expired[..|expired|] == expired;
  }

  lemma ScanIsRows(db: Ledger, now: int, ids: seq<nat>)
    requires ExpiredScan(db, now, ids)
    ensures AreRows(db, ids)
  {
  }

  /** Records a host's inventory and settles every old quarantine on it that the inventory does not mention. */
  method ResolveQuarantineFor(store: Store, node: Host, running: seq<nat>, completed: set<nat>, epoch: int, now: int)
    returns (resolved: nat)
    modifies store
    ensures store.db == Reported(old(store.db), node, epoch, running, completed, now)
    ensures |store.db.history| == |old(store.db).history| + resolved
  {
    hide NodeNamed, Settleable;
    resolved := 0;
    var host := NodeNamed(store.db.nodes, node);
    if host.None? || host.value.epoch != epoch {
      return;
    }
    store.db := store.db.(inventory := store.db.inventory[node := Inventory(host.value.epoch, |running|)]);
    ghost var told := store.db;
    for i := 0 to |store.db.leases|
      invariant |store.db.leases| == |told.leases| && store.db == AbsentUpTo(told, node, running, completed, now, i)
      invariant |store.db.history| == |told.history| + resolved
    {
      var l := store.db.leases[i];
      if Settleable(l, node, now) && i !in running {
        var outcome := Failed;
        if l.failureReason == "" {
          if i in completed {
            outcome := Done;
          } else {
            l := l.(failureReason := PROVISIONAL);
          }
        }
        Close(store, i, l.(phase := outcome, epoch := l.epoch + 1));
        resolved := resolved + 1;
      }
    }
  }
}

/** The overcommit invariant said of leases one by one: whatever open leases share a host, the deployment, a tier or a
    target, their charges together fit it. */
module SoldOnce {
  import opened Placement
  import opened Catalogue
  import opened LedgerState
  import opened Floors
  import opened Capacity
  import opened Lifecycle
  import opened Runs
  import opened Safety

  /** What some rows of the ledger are charged together. */
  function TotalCharge(leases: seq<Lease>, ids: seq<nat>): Usage
    requires forall i :: 0 <= i < |ids| ==> ids[i] < |leases|
  {
    if ids == [] then Usage(0, 0, 0, 0)
    else
      var rest, l := TotalCharge(leases, ids[..|ids| - 1]), leases[ids[|ids| - 1]];
      Usage(rest.vcpu + l.vcpu, rest.memory + l.memory, rest.macOS + (if l.macOSSlot then 1 else 0), rest.leases + 1)
  }

  /** Different rows of the ledger, all open, all of which something holds of. */
  predicate OpenRows(leases: seq<Lease>, ids: seq<nat>, holds: Lease -> bool)
  {
    && Distinct(ids)
    && forall i :: 0 <= i < |ids| ==>
         ids[i] < |leases| && leases[ids[i]].phase != Done && leases[ids[i]].phase != Failed && holds(leases[ids[i]])
  }

  predicate AtMost(a: Usage, b: Usage) { a.vcpu <= b.vcpu && a.memory <= b.memory && a.macOS <= b.macOS && a.leases <= b.leases }

  /** Different open rows that a query matches are charged together no more than the query sums to. */
  lemma {:induction false} RowsWithinSum(leases: seq<Lease>, ids: seq<nat>, q: Query, holds: Lease -> bool)
    requires AllCharged(leases) && OpenRows(leases, ids, holds) && forall l :: l in leases && Open(l) && holds(l) ==> Matches(l, q)
    ensures AtMost(TotalCharge(leases, ids), Used(leases, q))
    decreases |ids|
  {
    hide Used, Matches;
    UsedNonNegative(leases, q);
    if ids != [] {
      var front, last := ids[..|ids| - 1], ids[|ids| - 1];
      assert ids == front + [last];
      var shut := leases[last := leases[last].(phase := Done)];
      ShutUncharged(leases, last, q);
      assert leases[last] in leases;
      SameTotal(leases, shut, front);
      RowsWithinSum(shut, front, q, holds);
    }
  }

  lemma ShutUncharged(leases: seq<Lease>, id: nat, q: Query)
    requires id < |leases| && Matches(leases[id], q)
    ensures
      var l, was, now := leases[id], Used(leases, q), Used(leases[id := leases[id].(phase := Done)], q);
      && was.vcpu == now.vcpu + l.vcpu && was.memory == now.memory + l.memory
      && was.macOS == now.macOS + (if l.macOSSlot then 1 else 0) && was.leases == now.leases + 1
  {
    hide Used;
    UsedUpdate(leases, id, leases[id].(phase := Done), q);
  }

  lemma {:induction false} SameTotal(a: seq<Lease>, b: seq<Lease>, ids: seq<nat>)
    requires |a| == |b| && forall i :: 0 <= i < |ids| ==> ids[i] < |a| && a[ids[i]] == b[ids[i]]
    ensures TotalCharge(a, ids) == TotalCharge(b, ids)
  {
    if ids != [] {
      SameTotal(a, b, ids[..|ids| - 1]);
    }
  }

  function Home(l: Lease): Host { if l.node != "" then l.node else l.target }

  /** Over every run in which no host re-registers smaller: any open leases that are on one host fit it together, its
      licences included; any open leases fit the deployment; any of one capped tier are within its cap. */
  lemma NothingIsSoldTwice(cfg: Config, db: Ledger, run: seq<Tick>, k: nat, ids: seq<nat>, n: Node, t: Tier)
    requires ValidConfig(cfg) && k <= |run|
    requires WithinLimits(cfg, db) && Books(db) && Homed(db)
    requires forall m :: 0 <= m < k ==> NeverSmaller(StateAt(cfg, db, run, m), run[m].event)
    requires n in StateAt(cfg, db, run, k).nodes && t in cfg.tiers
    ensures
      var leases := StateAt(cfg, db, run, k).leases;
      && (OpenRows(leases, ids, (l: Lease) => Home(l) == n.name) ==>
            var sum := TotalCharge(leases, ids);
            sum.vcpu <= n.vcpu && sum.memory <= n.memory && sum.macOS <= Max(MacOSLimit(cfg, n.name), 0))
      && (OpenRows(leases, ids, (l: Lease) => true) ==>
            TotalCharge(leases, ids).vcpu <= cfg.maxVCPU && TotalCharge(leases, ids).memory <= cfg.maxMemory)
      && (OpenRows(leases, ids, (l: Lease) => l.tier == t.name) && t.maxConcurrent > 0 ==> |ids| <= t.maxConcurrent)
  {
    hide StateAt, Used, WithinLimits, Books, Homed, NeverSmaller, MacOSLimit, TotalCharge;
    var now := StateAt(cfg, db, run, k);
    RunKeepsLimits(cfg, db, run, k);
    LimitsMean(cfg, now, n, t);
    if OpenRows(now.leases, ids, (l: Lease) => Home(l) == n.name) {
      RowsWithinSum(now.leases, ids, OnHost(n.name), (l: Lease) => Home(l) == n.name);
    }
    if OpenRows(now.leases, ids, (l: Lease) => true) {
      RowsWithinSum(now.leases, ids, Everywhere, (l: Lease) => true);
    }
    if OpenRows(now.leases, ids, (l: Lease) => l.tier == t.name) {
      RowsWithinSum(now.leases, ids, InTiers({t.name}), (l: Lease) => l.tier == t.name);
      TotalCounts(now.leases, ids);
    }
  }

  lemma LimitsMean(cfg: Config, db: Ledger, n: Node, t: Tier)
    requires WithinLimits(cfg, db) && n in db.nodes && t in cfg.tiers
    ensures AllCharged(db.leases) && FitsHost(cfg, n, db.leases) && FitsDeployment(cfg, db.leases) && FitsCap(t, db.leases)
  {
    hide FitsHost, FitsDeployment, FitsCap;
  }

  lemma {:induction false} TotalCounts(leases: seq<Lease>, ids: seq<nat>)
    requires forall i :: 0 <= i < |ids| ==> ids[i] < |leases|
    ensures TotalCharge(leases, ids).leases == |ids|
  {
    if ids != [] {
      TotalCounts(leases, ids[..|ids| - 1]);
    }
  }

  /** And any open leases of one target's tiers, with any whose tier left the catalogue, fit the target's share. */
  lemma SharesAreKept(cfg: Config, db: Ledger, run: seq<Tick>, k: nat, mine: seq<nat>, strays: seq<nat>, target: string)
    requires ValidConfig(cfg) && k <= |run| && target in cfg.shares
    requires WithinLimits(cfg, db) && Books(db) && Homed(db)
    requires forall m :: 0 <= m < k ==> NeverSmaller(StateAt(cfg, db, run, m), run[m].event)
    requires OpenRows(StateAt(cfg, db, run, k).leases, mine, (l: Lease) => exists t :: t in cfg.tiers && t.name == l.tier && t.target == target)
    requires OpenRows(StateAt(cfg, db, run, k).leases, strays, (l: Lease) => forall t :: t in cfg.tiers ==> t.name != l.tier)
    ensures
      var a, b, share := TotalCharge(StateAt(cfg, db, run, k).leases, mine), TotalCharge(StateAt(cfg, db, run, k).leases, strays), cfg.shares[target];
      (share.vcpu > 0 ==> a.vcpu + b.vcpu <= share.vcpu) && (share.memory > 0 ==> a.memory + b.memory <= share.memory)
  {
    hide StateAt, Used, WithinLimits, Books, Homed, NeverSmaller, TotalCharge;
    var now := StateAt(cfg, db, run, k);
    RunKeepsLimits(cfg, db, run, k);
    ShareMeans(cfg, now, target);
    RowsWithinSum(now.leases, mine, InTiers(LabelsOf(cfg, target)), (l: Lease) => exists t :: t in cfg.tiers && t.name == l.tier && t.target == target);
    RowsWithinSum(now.leases, strays, OutsideTiers(AllLabels(cfg)), (l: Lease) => forall t :: t in cfg.tiers ==> t.name != l.tier);
  }

  lemma ShareMeans(cfg: Config, db: Ledger, target: string)
    requires WithinLimits(cfg, db) && target in cfg.shares
    ensures AllCharged(db.leases) && FitsShare(cfg, target, db.leases)
  {
    hide FitsShare, FitsHost, FitsDeployment, FitsCap;
  }
}

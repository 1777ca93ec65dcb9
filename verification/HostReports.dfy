/**
 What a host says it runs, over every run: its last believed report is its word
 until it speaks again, registers or is forgotten, and while that word names
 something nothing proves the host clear.
 */
module HostReports {
  import opened Placement
  import opened Catalogue
  import opened LedgerState
  import opened Purchases
  import opened EscrowImpl
  import opened Resizing
  import opened Leases
  import opened Barriers
  import opened Runs
  import opened Safety
  import opened LeaseRuns
  import opened BarrierRuns
  import opened BarrierStore

  /** The event is the host's own report, made under the registration it has. */
  predicate Believed(db: Ledger, e: Event, h: Host)
  {
    e.Report? && e.node == h && NodeNamed(db.nodes, h).Some? && NodeNamed(db.nodes, h).value.epoch == e.epoch
  }

  /** The event leaves nothing of what the host said before. */
  predicate Supersedes(db: Ledger, e: Event, h: Host)
  {
    Believed(db, e, h) || (e.Register? && e.registration.name == h && h != "") || e.ForgetEveryNode?
  }

  /** The host's last word, as the run's events have it at `k`, is that it runs something. */
  ghost predicate SaysItRuns(cfg: Config, db: Ledger, run: seq<Tick>, k: nat, h: Host)
    requires ValidConfig(cfg) && k <= |run|
  {
    exists m :: 0 <= m < k && SaidSo(cfg, db, run, m, k, h)
  }

  /** At `m` the host reported something, and nothing has taken its place by `k`. */
  ghost predicate SaidSo(cfg: Config, db: Ledger, run: seq<Tick>, m: nat, k: nat, h: Host)
    requires ValidConfig(cfg) && m < k <= |run|
  {
    && Believed(StateAt(cfg, db, run, m), run[m].event, h) && run[m].event.running != []
    && forall j :: m < j < k ==> !Supersedes(StateAt(cfg, db, run, j), run[j].event, h)
  }

  // ---- What each event does to the stored word ----

  lemma {:induction false} AbsentKeepsInventory(db: Ledger, node: Host, running: seq<nat>, completed: set<nat>, now: int, k: nat)
    requires k <= |db.leases|
    ensures AbsentUpTo(db, node, running, completed, now, k).inventory == db.inventory
  {
    if k > 0 {
      AbsentKeepsInventory(db, node, running, completed, now, k - 1);
    }
  }

  lemma ReportStored(cfg: Config, db: Ledger, t: Tick, h: Host)
    requires ValidConfig(cfg) && t.event.Report?
    ensures Apply(cfg, db, t).inventory ==
      if Believed(db, t.event, t.event.node) then db.inventory[t.event.node := Inventory(t.event.epoch, |t.event.running|)]
      else db.inventory
  {
    hide AbsentUpTo, NodeNamed;
    var e := t.event;
    if Believed(db, e, e.node) {
      var told := db.(inventory := db.inventory[e.node := Inventory(NodeNamed(db.nodes, e.node).value.epoch, |e.running|)]);
      AbsentKeepsInventory(told, e.node, e.running, e.completed, t.now, |told.leases|);
    }
  }

  lemma LeaseEventsStored(cfg: Config, db: Ledger, t: Tick)
    requires ValidConfig(cfg) && OnlyLeases(t.event) && !t.event.Report?
    ensures Apply(cfg, db, t).inventory == db.inventory
  {
    hide EffectOf, Attempted, ReclaimAll, ExpiredScan, ShapeFits, AllHaveRoom, ResizeRefusal, Judged;
    if t.event.Reap? && ExpiredScan(db, t.now, t.event.ids) {
      ScanRows(db, t.now, t.event.ids);
      ReclaimFrame(db, t.event.ids);
    }
  }

  lemma OtherEventsStored(cfg: Config, db: Ledger, t: Tick)
    requires ValidConfig(cfg) && !OnlyLeases(t.event)
    ensures Apply(cfg, db, t).inventory == if t.event.ForgetEveryNode? then map[] else db.inventory
  {
    hide Called, Purchased, Resized, Reaped, Reported, Registered, OnNode, Decommissioned, Observed;
    match t.event
    case Register(r) => RegisteredStored(db, r);
    case GiveUpOn(node, epoch) => OnNodeStored(db, node, (n: Node) => if n.epoch == epoch then n.(live := false) else n);
    case Withdraw(node, epoch, incarnation) =>
      OnNodeStored(db, node, (n: Node) => if n.epoch == epoch && n.incarnation == incarnation then n.(live := false) else n);
    case Drain(node, epoch, incarnation) =>
      OnNodeStored(db, node, (n: Node) => if n.epoch == epoch && n.incarnation == incarnation then n.(drained := true) else n);
    case DecommissionNode(node, actor, force) => DecommissionedStored(db, node, actor, force);
    case BumpDispatch(node) => OnNodeStored(db, node, (n: Node) => n.(dispatch := n.dispatch + 1));
    case Observe(obs) => ObservedStored(db, obs, t.now);
    case _ =>
  }

  lemma RegisteredStored(db: Ledger, r: Registration)
    ensures Registered(db, r).inventory == db.inventory
  {
  }

  lemma OnNodeStored(db: Ledger, h: Host, change: Node -> Node)
    ensures OnNode(db, h, change).inventory == db.inventory
  {
  }

  lemma DecommissionedStored(db: Ledger, h: Host, actor: string, force: bool)
    ensures Decommissioned(db, h, actor, force).inventory == db.inventory
  {
    hide Proved, Outstanding, NodeNamed, NodeIndex;
  }

  lemma ObservedStored(db: Ledger, obs: Observation, now: int)
    ensures Observed(db, obs, now).inventory == db.inventory
  {
    hide Current, NodeNamed, Extended;
  }

  /** The stored word is a host's in the table, under no later registration than it has. */
  predicate WordIsSound(db: Ledger, h: Host)
  {
    h in db.inventory ==> NodeNamed(db.nodes, h).Some? && db.inventory[h].epoch <= NodeNamed(db.nodes, h).value.epoch
  }

  /** The stored word is that the host, as it now stands, runs something. */
  predicate WordIsRunning(db: Ledger, h: Host)
  {
    NodeNamed(db.nodes, h).Some? && ReportsCompute(db, NodeNamed(db.nodes, h).value)
  }

  lemma WordStep(cfg: Config, db: Ledger, t: Tick, h: Host)
    requires ValidConfig(cfg) && (WordIsSound(db, h) || Believed(db, t.event, h))
    ensures WordIsSound(Apply(cfg, db, t), h)
    ensures WordIsRunning(Apply(cfg, db, t), h) <==>
      (Believed(db, t.event, h) && t.event.running != []) || (WordIsRunning(db, h) && !Supersedes(db, t.event, h))
  {
    hide Apply, NodeNamed;
    if t.event.Report? {
      ReportStored(cfg, db, t, h);
    } else if OnlyLeases(t.event) {
      LeaseEventsStored(cfg, db, t);
    } else {
      OtherEventsStored(cfg, db, t);
    }
    if NodeNamed(db.nodes, h).Some? {
      HostsStay(cfg, db, t, h);
    }
  }

  lemma {:induction false} RunKeepsWordSound(cfg: Config, db: Ledger, run: seq<Tick>, k: nat, h: Host)
    requires ValidConfig(cfg) && k <= |run| && db.inventory == map[]
    ensures WordIsSound(StateAt(cfg, db, run, k), h)
  {
    hide Apply, NodeNamed;
    if k > 0 {
      RunKeepsWordSound(cfg, db, run, k - 1, h);
      WordStep(cfg, StateAt(cfg, db, run, k - 1), run[k - 1], h);
    }
  }

  /** What the ledger stores of a host's word is what the run's events say it is. */
  lemma {:induction false} WordIsHistory(cfg: Config, db: Ledger, run: seq<Tick>, k: nat, h: Host)
    requires ValidConfig(cfg) && k <= |run| && db.inventory == map[]
    ensures WordIsRunning(StateAt(cfg, db, run, k), h) <==> SaysItRuns(cfg, db, run, k, h)
  {
    hide Apply, NodeNamed, Supersedes, WordIsRunning, WordIsSound;
    if k == 0 {
      NothingSaid(db, h);
    } else {
      var before, t := StateAt(cfg, db, run, k - 1), run[k - 1];
      WordIsHistory(cfg, db, run, k - 1, h);
      RunKeepsWordSound(cfg, db, run, k - 1, h);
      WordStep(cfg, before, t, h);
      if SaysItRuns(cfg, db, run, k, h) {
        var m :| 0 <= m < k && SaidSo(cfg, db, run, m, k, h);
        if m < k - 1 {
          assert SaidSo(cfg, db, run, m, k - 1, h);
        }
      }
      if t.event.Report? && Believed(before, t.event, h) && t.event.running != [] {
        assert SaidSo(cfg, db, run, k - 1, k, h);
      } else if SaysItRuns(cfg, db, run, k - 1, h) && !Supersedes(before, t.event, h) {
        var m :| 0 <= m < k - 1 && SaidSo(cfg, db, run, m, k - 1, h);
        assert SaidSo(cfg, db, run, m, k, h);
      }
    }
  }

  lemma NothingSaid(db: Ledger, h: Host)
    requires db.inventory == map[]
    ensures !WordIsRunning(db, h)
  {
    hide NodeNamed;
  }

  // ---- A host that says it runs something is never proved ----

  lemma {:induction false} WordStands(cfg: Config, db: Ledger, run: seq<Tick>, m: nat, k: nat, h: Host)
    requires ValidConfig(cfg) && m < k <= |run| && SaidSo(cfg, db, run, m, k, h)
    ensures WordIsRunning(StateAt(cfg, db, run, k), h) && WordIsSound(StateAt(cfg, db, run, k), h)
    decreases k
  {
    hide Apply, NodeNamed, WordIsSound, WordIsRunning;
    if m < k - 1 {
      WordStands(cfg, db, run, m, k - 1, h);
    }
    WordStep(cfg, StateAt(cfg, db, run, k - 1), run[k - 1], h);
  }

  /** From any ledger: once a host has reported something under the registration it has, then until it reports again
      under its registration, registers or is forgotten, nothing proves it, the report says it is running, and the
      fleet is not clear unless a person has removed the host. */
  lemma ReportedComputeBlocks(cfg: Config, db: Ledger, run: seq<Tick>, m: nat, k: nat, h: Host)
    requires ValidConfig(cfg) && m < k <= |run| && SaidSo(cfg, db, run, m, k, h)
    ensures
      var now, n := StateAt(cfg, db, run, k), HostAt(cfg, db, run, k, h);
      && n.Some? && !Proved(now, h)
      && (now.barrier.Some? ==> ClearanceOf(now, n.value) == Running)
      && (n.value.decommissioned.None? ==> !FleetClear(now))
  {
    hide StateAt, SaidSo, NodeIndex;
    WordStands(cfg, db, run, m, k, h);
  }

  // ---- The report is history ----

  /** The host has answered empty since, with nothing ending its run or moving its fence up to now. */
  ghost predicate KeepsAnswering(cfg: Config, db: Ledger, run: seq<Tick>, k: nat, h: Host)
    requires ValidConfig(cfg) && k <= |run|
  {
    exists i :: 0 <= i < k && QuietSince(cfg, db, run, i, k, h)
  }

  /** Two such answers are at least five minutes apart. */
  ghost predicate AnsweredTwice(cfg: Config, db: Ledger, run: seq<Tick>, k: nat, h: Host)
    requires ValidConfig(cfg) && k <= |run|
  {
    exists i, j :: 0 <= i <= j < k && TwoApart(cfg, db, run, i, j, k, h)
  }

  ghost predicate TwoApart(cfg: Config, db: Ledger, run: seq<Tick>, i: nat, j: nat, k: nat, h: Host)
    requires ValidConfig(cfg) && i <= j < k <= |run|
  {
    && QuietSince(cfg, db, run, i, k, h) && RecordsEmpty(StateAt(cfg, db, run, j), run[j].event, h)
    && run[j].now - run[i].now >= 300_000_000_000
  }

  /** The stored run is under the barrier in force and fenced by the host as it stands. */
  predicate RunStands(db: Ledger, n: Node) { HasRun(db, n.name) && FencedBy(db.runs[n.name], n) }

  lemma StoredRunIsHistory(cfg: Config, db: Ledger, run: seq<Tick>, k: nat, h: Host)
    requires ValidConfig(cfg) && k <= |run| && db.runs == map[] && HostAt(cfg, db, run, k, h).Some?
    requires RunStands(StateAt(cfg, db, run, k), HostAt(cfg, db, run, k, h).value)
    ensures KeepsAnswering(cfg, db, run, k, h)
    ensures Spans(StateAt(cfg, db, run, k).runs[h]) ==> AnsweredTwice(cfg, db, run, k, h)
  {
    hide StateAt, EndsRun, RecordsEmpty, MovesFence, NodeIndex;
    var i, j := RowSummarisesHistory(cfg, db, run, k, h);
    forall m | i <= m < k ensures !MovesFence(run[m].event, h) {
      SameFenceNothingMoved(cfg, db, run, i, k, h, m);
    }
    assert QuietSince(cfg, db, run, i, k, h);
    if Spans(StateAt(cfg, db, run, k).runs[h]) {
      assert TwoApart(cfg, db, run, i, j, k, h);
    }
  }

  lemma HistoryIsStored(cfg: Config, db: Ledger, run: seq<Tick>, i: nat, j: nat, k: nat, h: Host)
    requires ValidConfig(cfg) && i <= j < k <= |run| && ClockRuns(run) && db.runs == map[]
    requires QuietSince(cfg, db, run, i, k, h) && RecordsEmpty(StateAt(cfg, db, run, j), run[j].event, h)
    ensures
      var now, n := StateAt(cfg, db, run, k), HostAt(cfg, db, run, k, h);
      n.Some? && RunStands(now, n.value) && now.runs[h].emptySince <= run[i].now && run[j].now <= now.runs[h].observedAt
  {
    hide StateAt, EndsRun, MovesFence, NodeIndex;
    CurrentHost(StateAt(cfg, db, run, i), run[i].event.obs);
    if h in StateAt(cfg, db, run, i).runs {
      var a, _ := RowSummarisesHistory(cfg, db, run, i, h);
    }
    RunGoesOn(cfg, db, run, i, j, k, h);
    UnmovedFenceIsSame(cfg, db, run, i, k, h);
  }

  /** The stored run stands exactly when the host keeps answering, and spans exactly when two answers do. */
  lemma RunIsHistory(cfg: Config, db: Ledger, run: seq<Tick>, k: nat, h: Host)
    requires ValidConfig(cfg) && k <= |run| && ClockRuns(run) && db.runs == map[] && HostAt(cfg, db, run, k, h).Some?
    ensures
      var now, n := StateAt(cfg, db, run, k), HostAt(cfg, db, run, k, h).value;
      && (RunStands(now, n) <==> KeepsAnswering(cfg, db, run, k, h))
      && (RunStands(now, n) && Spans(now.runs[h]) <==> AnsweredTwice(cfg, db, run, k, h))
  {
    hide StateAt, QuietSince, RunStands, RecordsEmpty;
    var now, n := StateAt(cfg, db, run, k), HostAt(cfg, db, run, k, h).value;
    if RunStands(now, n) {
      StoredRunIsHistory(cfg, db, run, k, h);
    }
    if KeepsAnswering(cfg, db, run, k, h) {
      var i :| 0 <= i < k && QuietSince(cfg, db, run, i, k, h);
      QuietStarts(cfg, db, run, i, k, h);
      HistoryIsStored(cfg, db, run, i, i, k, h);
    }
    if AnsweredTwice(cfg, db, run, k, h) {
      var i, j :| 0 <= i <= j < k && TwoApart(cfg, db, run, i, j, k, h);
      HistoryIsStored(cfg, db, run, i, j, k, h);
    }
  }

  lemma QuietStarts(cfg: Config, db: Ledger, run: seq<Tick>, i: nat, k: nat, h: Host)
    requires ValidConfig(cfg) && i < k <= |run| && QuietSince(cfg, db, run, i, k, h)
    ensures RecordsEmpty(StateAt(cfg, db, run, i), run[i].event, h)
  {
    hide StateAt, RecordsEmpty;
  }

  /** Every host's place in the fleet's answer, from the run's events alone: running while its last word names
      something; else proved by two empty answers the grace apart, settling on the way there, too old to answer,
      waited for while in contact, and unreachable otherwise. */
  lemma ClearanceIsHistory(cfg: Config, db: Ledger, run: seq<Tick>, k: nat, h: Host)
    requires ValidConfig(cfg) && k <= |run| && ClockRuns(run) && HostAt(cfg, db, run, k, h).Some?
    requires db.runs == map[] && db.inventory == map[]
    ensures
      var now, n := StateAt(cfg, db, run, k), HostAt(cfg, db, run, k, h).value;
      ClearanceOf(now, n) ==
        if now.barrier.None? then Waiting
        else if SaysItRuns(cfg, db, run, k, h) then Running
        else if AnsweredTwice(cfg, db, run, k, h) then ClearProved
        else if KeepsAnswering(cfg, db, run, k, h) then if n.live then Settling else Unreachable
        else if 1 <= n.wire <= 13 then BelowProtocol
        else if n.live then Waiting
        else Unreachable
  {
    hide StateAt, SaysItRuns, AnsweredTwice, KeepsAnswering, NodeIndex;
    WordIsHistory(cfg, db, run, k, h);
    RunIsHistory(cfg, db, run, k, h);
  }

  /** A decommission proves a host exactly when the seal of the barrier in force holds, the host answered empty
      twice the grace apart with nothing in between, and its last word names nothing it runs. */
  lemma ProvedExactlyWhen(cfg: Config, db: Ledger, run: seq<Tick>, k: nat, h: Host)
    requires ValidConfig(cfg) && k <= |run| && ClockRuns(run) && HostAt(cfg, db, run, k, h).Some?
    requires db.runs == map[] && db.inventory == map[]
    ensures
      var now := StateAt(cfg, db, run, k);
      Proved(now, h) <==>
        && now.barrier.Some? && now.admission.sealed && now.admission.generation == now.barrier.value.generation
        && AnsweredTwice(cfg, db, run, k, h) && !SaysItRuns(cfg, db, run, k, h)
  {
    hide StateAt, SaysItRuns, AnsweredTwice, NodeIndex, ProvenBy;
    ProvenIsHistory(cfg, db, run, k, h);
  }

  /** The fleet's answer is clear exactly when its barrier's seal holds and every host nobody removed answered empty
      twice, five minutes apart with nothing in between, and its last word names nothing it runs. */
  lemma ClearExactlyWhen(cfg: Config, db: Ledger, run: seq<Tick>, k: nat, c: FleetClearance)
    requires ValidConfig(cfg) && Ready(db) && k <= |run| && ClockRuns(run) && db.runs == map[] && db.inventory == map[]
    requires
      var now := StateAt(cfg, db, run, k);
      && c.requested == now.barrier.Some? && (c.requested ==> c.generation == now.barrier.value.generation)
      && c.admissionSealed == now.admission.sealed && c.admissionGeneration == now.admission.generation
      && Reports(now, now.nodes, c)
    ensures
      var now := StateAt(cfg, db, run, k);
      c.Clear() <==>
        && now.barrier.Some? && now.admission.sealed && now.admission.generation == now.barrier.value.generation
        && forall n :: n in now.nodes && n.decommissioned.None? ==>
             AnsweredTwice(cfg, db, run, k, n.name) && !SaysItRuns(cfg, db, run, k, n.name)
  {
    hide StateAt, SaysItRuns, AnsweredTwice, NodeNamed, Ready, Reports, ProvenBy, ReportsCompute;
    var now := StateAt(cfg, db, run, k);
    RunKeepsBooks(cfg, db, run, k);
    ReadyLedger(now);
    ReportIsClear(now, c);
    forall n | n in now.nodes
      ensures ProvenBy(now, n) <==> AnsweredTwice(cfg, db, run, k, n.name) && !SaysItRuns(cfg, db, run, k, n.name)
    {
      NodeNamedUnique(now.nodes, n);
      ProvenIsHistory(cfg, db, run, k, n.name);
    }
  }

  lemma ProvenIsHistory(cfg: Config, db: Ledger, run: seq<Tick>, k: nat, h: Host)
    requires ValidConfig(cfg) && k <= |run| && ClockRuns(run) && HostAt(cfg, db, run, k, h).Some?
    requires db.runs == map[] && db.inventory == map[]
    ensures ProvenBy(StateAt(cfg, db, run, k), HostAt(cfg, db, run, k, h).value) <==>
      AnsweredTwice(cfg, db, run, k, h) && !SaysItRuns(cfg, db, run, k, h)
  {
    hide StateAt, SaysItRuns, AnsweredTwice, KeepsAnswering, NodeIndex;
    WordIsHistory(cfg, db, run, k, h);
    RunIsHistory(cfg, db, run, k, h);
  }

  /** At `m` the host's word became that it runs nothing (an empty report, a registration, a restart of the control
      plane), and nothing has taken its place by `k`. */
  ghost predicate WentQuiet(cfg: Config, db: Ledger, run: seq<Tick>, m: nat, k: nat, h: Host)
    requires ValidConfig(cfg) && m < k <= |run|
  {
    && Supersedes(StateAt(cfg, db, run, m), run[m].event, h) && (run[m].event.Report? ==> run[m].event.running == [])
    && forall j :: m < j < k ==> !Supersedes(StateAt(cfg, db, run, j), run[j].event, h)
  }

  /** A host whose last believed report listed nothing, or that has made none since it registered or was forgotten,
      is not held back by its word: two empty answers the grace apart prove it. */
  lemma QuietWordHoldsNothingBack(cfg: Config, db: Ledger, run: seq<Tick>, m: nat, k: nat, h: Host)
    requires ValidConfig(cfg) && m < k <= |run| && WentQuiet(cfg, db, run, m, k, h)
    requires ClockRuns(run) && HostAt(cfg, db, run, k, h).Some? && db.runs == map[] && db.inventory == map[]
    ensures
      var now := StateAt(cfg, db, run, k);
      && (AnsweredTwice(cfg, db, run, k, h) ==> ProvenBy(now, HostAt(cfg, db, run, k, h).value))
      && (now.barrier.Some? ==> ClearanceOf(now, HostAt(cfg, db, run, k, h).value) != Running)
  {
    hide StateAt, Supersedes, AnsweredTwice, KeepsAnswering, NodeIndex;
    if SaysItRuns(cfg, db, run, k, h) {
      var a :| 0 <= a < k && SaidSo(cfg, db, run, a, k, h);
      BelievedSupersedes(StateAt(cfg, db, run, a), run[a].event, h);
      assert false;
    }
    WordIsHistory(cfg, db, run, k, h);
    RunIsHistory(cfg, db, run, k, h);
  }

  lemma BelievedSupersedes(db: Ledger, e: Event, h: Host)
    requires Believed(db, e, h)
    ensures Supersedes(db, e, h)
  {
  }
}

/**
 The compute barrier over every run: the stored row summarises the history, a
 proof is two answers and never a clock, and what a clear fleet then implies.
 */
module BarrierRuns {
  import opened Placement
  import opened Catalogue
  import opened LedgerState
  import opened EscrowImpl
  import opened Resizing
  import opened Leases
  import opened Barriers
  import opened Runs
  import opened Safety
  import opened LeaseRuns

  /** The answer names the barrier that stands, and the registration and launch generation its host has. */
  predicate AnswersNow(db: Ledger, obs: Observation)
  {
    && db.barrier.Some? && db.barrier.value.id == obs.barrier
    && NodeNamed(db.nodes, obs.node).Some?
    && NodeNamed(db.nodes, obs.node).value.epoch == obs.epoch && NodeNamed(db.nodes, obs.node).value.dispatch == obs.dispatch
  }

  /** The event records an empty answer of this host, current in every part of its fence. */
  predicate RecordsEmpty(db: Ledger, e: Event, h: Host)
  {
    e.Observe? && e.obs.node == h && e.obs.empty && AnswersNow(db, e.obs)
  }

  /** The event ends this host's run: a stale or non-empty answer, an arrival, a decommission, another barrier. */
  predicate EndsRun(db: Ledger, e: Event, h: Host)
  {
    match e
    case Observe(obs) =>
      && obs.node == h && db.barrier.Some? && db.barrier.value.id == obs.barrier && NodeNamed(db.nodes, h).Some?
      && !(obs.empty && AnswersNow(db, obs))
    case InvalidateRun(node) => node == h
    case InvalidateEveryRun => true
    case DecommissionNode(node, actor, force) => node == h && Decommissioning(db, node, actor, force).Excluded?
    case RequestBarrier(generation, _, _) => db.barrier.None? || db.barrier.value.generation != generation
    case DropBarrier(id) => db.barrier.Some? && db.barrier.value.id == id
    case _ => false
  }

  /** A launch dispatched to the host, or the host registering. */
  predicate MovesFence(e: Event, h: Host)
  {
    e == BumpDispatch(h) || (e.Register? && e.registration.name == h && h != "")
  }

  /** What one event does to one host's stored run, exactly. */
  lemma RunStep(cfg: Config, db: Ledger, t: Tick, h: Host)
    requires ValidConfig(cfg)
    ensures
      var after := Apply(cfg, db, t).runs;
      && (h in after <==> RecordsEmpty(db, t.event, h) || (h in db.runs && !EndsRun(db, t.event, h)))
      && (RecordsEmpty(db, t.event, h) ==>
            after[h] == Extended(db, h, t.event.obs.barrier, NodeNamed(db.nodes, h).value, t.now))
      && (h in after && !RecordsEmpty(db, t.event, h) ==> after[h] == db.runs[h])
  {
    hide Called, Purchased, Resized, Reaped, Reported, Registered, OnNode, Forgotten, Sealing, Resuming, Observed,
      Decommissioned, Extended, AnswersNow, NodeNamed, Decommissioning;
    if OnlyLeases(t.event) {
      LeaseEventsFrame(cfg, db, t);
    } else if t.event.Observe? {
      ObservedRun(db, t.event.obs, t.now, h);
    } else if t.event.DecommissionNode? {
      DecommissionedRun(db, t.event.node, t.event.actor, t.event.force, h);
    } else if QuietForRuns(t.event) {
      QuietEventsKeepRuns(cfg, db, t);
    }
  }

  /** Events that say nothing about any host's run. */
  predicate QuietForRuns(e: Event)
  {
    e.Register? || e.GiveUpOn? || e.Withdraw? || e.Drain? || e.ForgetEveryNode? || e.BumpDispatch? || e.Seal? || e.Resume?
  }

  lemma QuietEventsKeepRuns(cfg: Config, db: Ledger, t: Tick)
    requires ValidConfig(cfg) && QuietForRuns(t.event)
    ensures Apply(cfg, db, t).runs == db.runs && Apply(cfg, db, t).barrier == db.barrier
  {
    hide Called, Purchased, Resized, Reaped, Reported, Observed, Decommissioned, NodeIndex, RowOf;
  }

  lemma ObservedRun(db: Ledger, obs: Observation, now: int, h: Host)
    ensures
      var after, e := Observed(db, obs, now).runs, Observe(obs);
      && (h in after <==> RecordsEmpty(db, e, h) || (h in db.runs && !EndsRun(db, e, h)))
      && (RecordsEmpty(db, e, h) ==> after[h] == Extended(db, h, obs.barrier, NodeNamed(db.nodes, h).value, now))
      && (h in after && !RecordsEmpty(db, e, h) ==> after[h] == db.runs[h])
  {
    hide NodeNamed, Extended;
  }

  lemma DecommissionedRun(db: Ledger, node: Host, actor: string, force: bool, h: Host)
    ensures
      var after := Decommissioned(db, node, actor, force).runs;
      && (h in after <==> h in db.runs && !EndsRun(db, DecommissionNode(node, actor, force), h))
      && (h in after ==> after[h] == db.runs[h])
  {
    hide NodeNamed, Proved, Outstanding, OnNode;
  }

  // ---- Fences only move forward ----

  /** The host's row as a run has it at `k`. */
  ghost function HostAt(cfg: Config, db: Ledger, run: seq<Tick>, k: nat, h: Host): Option<Node>
    requires ValidConfig(cfg) && k <= |run|
  {
    NodeNamed(StateAt(cfg, db, run, k).nodes, h)
  }

  predicate NotBehind(a: Node, b: Node) { a.epoch <= b.epoch && a.dispatch <= b.dispatch }

  predicate SameFence(a: Node, b: Node) { a.epoch == b.epoch && a.dispatch == b.dispatch }

  lemma {:induction false} FencesNeverGoBack(cfg: Config, db: Ledger, run: seq<Tick>, a: nat, b: nat, h: Host)
    requires ValidConfig(cfg) && a <= b <= |run| && HostAt(cfg, db, run, a, h).Some?
    ensures HostAt(cfg, db, run, b, h).Some?
    ensures NotBehind(HostAt(cfg, db, run, a, h).value, HostAt(cfg, db, run, b, h).value)
    decreases b - a
  {
    hide Apply, NodeNamed;
    if a < b {
      FencesNeverGoBack(cfg, db, run, a, b - 1, h);
      HostsStay(cfg, StateAt(cfg, db, run, b - 1), run[b - 1], h);
    }
  }

  /** A fence that reads the same at both ends was moved by nothing in between. */
  lemma SameFenceNothingMoved(cfg: Config, db: Ledger, run: seq<Tick>, a: nat, b: nat, h: Host, m: nat)
    requires ValidConfig(cfg) && a <= m < b <= |run|
    requires HostAt(cfg, db, run, a, h).Some? && HostAt(cfg, db, run, b, h).Some?
    requires SameFence(HostAt(cfg, db, run, a, h).value, HostAt(cfg, db, run, b, h).value)
    ensures !MovesFence(run[m].event, h)
  {
    hide Apply, NodeNamed;
    FencesNeverGoBack(cfg, db, run, a, m, h);
    HostsStay(cfg, StateAt(cfg, db, run, m), run[m], h);
    FencesNeverGoBack(cfg, db, run, m + 1, b, h);
  }

  /** And a fence nothing moved reads the same. */
  lemma {:induction false} UnmovedFenceIsSame(cfg: Config, db: Ledger, run: seq<Tick>, a: nat, b: nat, h: Host)
    requires ValidConfig(cfg) && a <= b <= |run| && HostAt(cfg, db, run, a, h).Some?
    requires forall m :: a <= m < b ==> !MovesFence(run[m].event, h)
    ensures HostAt(cfg, db, run, b, h).Some?
    ensures SameFence(HostAt(cfg, db, run, a, h).value, HostAt(cfg, db, run, b, h).value)
    decreases b - a
  {
    hide Apply, NodeNamed;
    if a < b {
      UnmovedFenceIsSame(cfg, db, run, a, b - 1, h);
      HostsStay(cfg, StateAt(cfg, db, run, b - 1), run[b - 1], h);
    }
  }

  // ---- The stored row summarises the history ----

  /** At `m` the run records an empty answer of this host under the row's barrier and fence. */
  ghost predicate Answered(cfg: Config, db: Ledger, run: seq<Tick>, m: nat, h: Host, row: EmptyRun)
    requires ValidConfig(cfg) && m < |run|
  {
    && RecordsEmpty(StateAt(cfg, db, run, m), run[m].event, h)
    && HostAt(cfg, db, run, m, h).Some?
    && SameRun(row, run[m].event.obs.barrier, HostAt(cfg, db, run, m, h).value)
  }

  /** The row's two ends are two recorded empty answers, and nothing since the first ended the run. */
  ghost predicate Summarises(cfg: Config, db: Ledger, run: seq<Tick>, k: nat, h: Host, row: EmptyRun, i: nat, j: nat)
    requires ValidConfig(cfg) && k <= |run|
  {
    && i <= j < k
    && Answered(cfg, db, run, i, h, row) && run[i].now == row.emptySince
    && Answered(cfg, db, run, j, h, row) && run[j].now == row.observedAt
    && (forall m :: i <= m < k ==> !EndsRun(StateAt(cfg, db, run, m), run[m].event, h))
  }

  lemma RecordingEndsNothing(db: Ledger, e: Event, h: Host)
    requires RecordsEmpty(db, e, h)
    ensures !EndsRun(db, e, h)
  {
  }

  /** Every stored row is the summary of a piece of history. */
  lemma {:induction false} RowSummarisesHistory(cfg: Config, db: Ledger, run: seq<Tick>, k: nat, h: Host) returns (i: nat, j: nat)
    requires ValidConfig(cfg) && k <= |run| && db.runs == map[] && h in StateAt(cfg, db, run, k).runs
    ensures Summarises(cfg, db, run, k, h, StateAt(cfg, db, run, k).runs[h], i, j)
  {
    hide Apply, NodeNamed, AnswersNow, EndsRun;
    var before, t := StateAt(cfg, db, run, k - 1), run[k - 1];
    RunStep(cfg, before, t, h);
    if !RecordsEmpty(before, t.event, h) {
      i, j := RowSummarisesHistory(cfg, db, run, k - 1, h);
    } else {
      RecordingEndsNothing(before, t.event, h);
      CurrentHost(before, t.event.obs);
      i, j := k - 1, k - 1;
      if h in before.runs && SameRun(before.runs[h], t.event.obs.barrier, NodeNamed(before.nodes, h).value) {
        var start, _ := RowSummarisesHistory(cfg, db, run, k - 1, h);
        i := start;
      }
    }
  }

  lemma CurrentHost(db: Ledger, obs: Observation)
    requires AnswersNow(db, obs)
    ensures NodeNamed(db.nodes, obs.node).Some?
  {
  }

  /** A proof is history: two recorded empty answers under one barrier, registration and launch generation, at
      least the grace apart, with no stale or non-empty answer, arrival, launch or registration since the first. */
  lemma ProofIsTwoAnswers(cfg: Config, db: Ledger, run: seq<Tick>, k: nat, h: Host) returns (i: nat, j: nat)
    requires ValidConfig(cfg) && k <= |run| && db.runs == map[]
    requires HostAt(cfg, db, run, k, h).Some? && ProvenBy(StateAt(cfg, db, run, k), HostAt(cfg, db, run, k, h).value)
    ensures i < j < k && run[j].now >= run[i].now + GRACE
    ensures
      var row := StateAt(cfg, db, run, k).runs[h];
      Answered(cfg, db, run, i, h, row) && Answered(cfg, db, run, j, h, row) && InForce(StateAt(cfg, db, run, k), row.barrier)
    ensures forall m :: i <= m < k ==>
      !EndsRun(StateAt(cfg, db, run, m), run[m].event, h) && !MovesFence(run[m].event, h)
  {
    hide StateAt, EndsRun, RecordsEmpty, MovesFence, NodeIndex;
    i, j := RowSummarisesHistory(cfg, db, run, k, h);
    forall m | i <= m < k ensures !MovesFence(run[m].event, h) {
      SameFenceNothingMoved(cfg, db, run, i, k, h, m);
    }
  }

  /** The clock the ledger stamps with never runs backwards. */
  ghost predicate ClockRuns(run: seq<Tick>)
  {
    forall a, b :: 0 <= a < b < |run| ==> run[a].now <= run[b].now
  }

  /** The stored row is a run under this barrier and fence that covers `since`. */
  predicate Describes(db: Ledger, h: Host, barrier: string, n: Node, since: int)
  {
    && h in db.runs && InForce(db, barrier) && SameRun(db.runs[h], barrier, n)
    && db.runs[h].emptySince <= since <= db.runs[h].observedAt
  }

  lemma AnswerStarts(cfg: Config, db: Ledger, t: Tick, h: Host)
    requires ValidConfig(cfg) && RecordsEmpty(db, t.event, h) && RowsNotAhead(db, t.now, h)
    ensures NodeNamed(db.nodes, h).Some? && InForce(db, t.event.obs.barrier)
    ensures Describes(Apply(cfg, db, t), h, t.event.obs.barrier, NodeNamed(db.nodes, h).value, t.now)
    ensures Apply(cfg, db, t).runs[h].observedAt == t.now
  {
    hide Apply, NodeNamed, EndsRun;
    RunStep(cfg, db, t, h);
    RecordingEndsNothing(db, t.event, h);
    StillInForce(cfg, db, t, h, t.event.obs.barrier);
  }

  lemma RunContinues(cfg: Config, db: Ledger, t: Tick, h: Host, barrier: string, n: Node, since: int)
    requires ValidConfig(cfg) && Describes(db, h, barrier, n, since) && db.runs[h].observedAt <= t.now
    requires NodeNamed(db.nodes, h).Some? && SameFence(n, NodeNamed(db.nodes, h).value) && !EndsRun(db, t.event, h)
    ensures
      var after := Apply(cfg, db, t);
      && Describes(after, h, barrier, n, since)
      && after.runs[h].observedAt == if RecordsEmpty(db, t.event, h) then t.now else db.runs[h].observedAt
  {
    hide Apply, NodeNamed, EndsRun;
    RunStep(cfg, db, t, h);
    StillInForce(cfg, db, t, h, barrier);
  }

  /** While nothing ends a run or moves its fence, the row goes on describing it, up to its last empty answer. */
  lemma {:induction false} RunGoesOn(cfg: Config, db: Ledger, run: seq<Tick>, i: nat, j: nat, k: nat, h: Host)
    requires ValidConfig(cfg) && i <= j < k <= |run| && ClockRuns(run) && RowsNotAhead(StateAt(cfg, db, run, i), run[i].now, h)
    requires RecordsEmpty(StateAt(cfg, db, run, i), run[i].event, h) && HostAt(cfg, db, run, i, h).Some?
    requires RecordsEmpty(StateAt(cfg, db, run, j), run[j].event, h)
    requires forall m :: i <= m < k ==> !EndsRun(StateAt(cfg, db, run, m), run[m].event, h) && !MovesFence(run[m].event, h)
    ensures Describes(StateAt(cfg, db, run, k), h, run[i].event.obs.barrier, HostAt(cfg, db, run, i, h).value, run[i].now)
    ensures run[j].now <= StateAt(cfg, db, run, k).runs[h].observedAt <= run[k - 1].now
    decreases k
  {
    hide Apply, NodeNamed, EndsRun, AnswersNow, MovesFence, RowsNotAhead, InForce, SameRun;
    var before, t := StateAt(cfg, db, run, k - 1), run[k - 1];
    if i == k - 1 {
      AnswerStarts(cfg, before, t, h);
    } else {
      RunGoesOn(cfg, db, run, i, if j == k - 1 then i else j, k - 1, h);
      UnmovedFenceIsSame(cfg, db, run, i, k - 1, h);
      RunContinues(cfg, before, t, h, run[i].event.obs.barrier, HostAt(cfg, db, run, i, h).value, run[i].now);
    }
  }

  /** No stored row claims to have started later than the clock. */
  predicate RowsNotAhead(db: Ledger, now: int, h: Host)
  {
    h in db.runs ==> db.runs[h].emptySince <= now
  }

  lemma StillInForce(cfg: Config, db: Ledger, t: Tick, h: Host, id: string)
    requires ValidConfig(cfg) && InForce(db, id) && !EndsRun(db, t.event, h)
    ensures InForce(Apply(cfg, db, t), id)
  {
    hide Called, Purchased, Resized, Reaped, Reported, Decommissioned, OnNode, Registered, Forgotten, Sealing, Resuming, Current, AnswersNow, NodeNamed;
    if OnlyLeases(t.event) {
      LeaseEventsFrame(cfg, db, t);
    } else if QuietForRuns(t.event) {
      QuietEventsKeepRuns(cfg, db, t);
    } else if t.event.DecommissionNode? {
      NodeEventsFrame(cfg, db, t);
    }
  }

  /** And history is a proof: two such answers the grace apart, with nothing ending the run or moving the
      fence up to now, prove the host unless it says itself that it runs something. */
  lemma TwoAnswersProve(cfg: Config, db: Ledger, run: seq<Tick>, k: nat, h: Host, i: nat, j: nat)
    requires ValidConfig(cfg) && i < j < k <= |run| && ClockRuns(run) && db.runs == map[]
    requires HostAt(cfg, db, run, i, h).Some? && HostAt(cfg, db, run, k, h).Some?
    requires RecordsEmpty(StateAt(cfg, db, run, i), run[i].event, h) && RecordsEmpty(StateAt(cfg, db, run, j), run[j].event, h)
    requires run[j].now >= run[i].now + GRACE
    requires forall m :: i <= m < k ==> !EndsRun(StateAt(cfg, db, run, m), run[m].event, h) && !MovesFence(run[m].event, h)
    ensures
      var now, n := StateAt(cfg, db, run, k), HostAt(cfg, db, run, k, h).value;
      ProvenBy(now, n) <==> !ReportsCompute(now, n)
  {
    hide StateAt, EndsRun, MovesFence, NodeIndex, RecordsEmpty;
    if h in StateAt(cfg, db, run, i).runs {
      var a, _ := RowSummarisesHistory(cfg, db, run, i, h);
    }
    RunGoesOn(cfg, db, run, i, j, k, h);
    UnmovedFenceIsSame(cfg, db, run, i, k, h);
  }

  // ---- Time alone proves nothing ----

  /** A stored row is under the barrier in force, about a host in the table, and never ahead of its fences. */
  predicate RowIsSound(db: Ledger, h: Host)
  {
    h in db.runs ==>
      && InForce(db, db.runs[h].barrier) && NodeNamed(db.nodes, h).Some?
      && db.runs[h].epoch <= NodeNamed(db.nodes, h).value.epoch && db.runs[h].dispatch <= NodeNamed(db.nodes, h).value.dispatch
  }

  lemma StepKeepsRowSound(cfg: Config, db: Ledger, t: Tick, h: Host)
    requires ValidConfig(cfg) && RowIsSound(db, h)
    ensures RowIsSound(Apply(cfg, db, t), h)
  {
    hide Apply, NodeNamed, EndsRun;
    RunStep(cfg, db, t, h);
    if h in Apply(cfg, db, t).runs {
      if RecordsEmpty(db, t.event, h) {
        CurrentHost(db, t.event.obs);
        RecordingEndsNothing(db, t.event, h);
        StillInForce(cfg, db, t, h, t.event.obs.barrier);
      } else {
        StillInForce(cfg, db, t, h, db.runs[h].barrier);
      }
      HostsStay(cfg, db, t, h);
    }
  }

  lemma {:induction false} RunKeepsRowSound(cfg: Config, db: Ledger, run: seq<Tick>, k: nat, h: Host)
    requires ValidConfig(cfg) && k <= |run| && db.runs == map[]
    ensures RowIsSound(StateAt(cfg, db, run, k), h)
  {
    hide Apply;
    if k > 0 {
      RunKeepsRowSound(cfg, db, run, k - 1, h);
      StepKeepsRowSound(cfg, StateAt(cfg, db, run, k - 1), run[k - 1], h);
    }
  }

  /** The ledger holds a completed run of this host, fenced by the host as it stands. */
  predicate RunProves(db: Ledger, h: Host)
  {
    NodeNamed(db.nodes, h).Some? && HasRun(db, h) && FencedBy(db.runs[h], NodeNamed(db.nodes, h).value) && Spans(db.runs[h])
  }

  /** No event but a recorded empty answer of the host itself ever completes its run, however much time passes. */
  lemma OnlyAnswersProve(cfg: Config, db: Ledger, run: seq<Tick>, k: nat, h: Host)
    requires ValidConfig(cfg) && k < |run| && db.runs == map[]
    requires !RunProves(StateAt(cfg, db, run, k), h) && RunProves(StateAt(cfg, db, run, k + 1), h)
    ensures RecordsEmpty(StateAt(cfg, db, run, k), run[k].event, h)
  {
    hide Apply, NodeNamed, EndsRun, RecordsEmpty;
    var before := StateAt(cfg, db, run, k);
    RunKeepsRowSound(cfg, db, run, k, h);
    RunStep(cfg, before, run[k], h);
    if !RecordsEmpty(before, run[k].event, h) {
      HostsStay(cfg, before, run[k], h);
    }
  }

  // ---- What a clear fleet implies ----

  /** Every expected host proved, under the seal the barrier was requested at. */
  ghost predicate FleetClear(db: Ledger)
  {
    SealHolds(db) && forall n :: n in db.nodes && n.decommissioned.None? ==> ProvenBy(db, n)
  }

  /** Admission's generation never goes back, and while it stands so does the seal. */
  lemma StepMovesAdmission(cfg: Config, db: Ledger, t: Tick)
    requires ValidConfig(cfg)
    ensures
      var a, b := db.admission, Apply(cfg, db, t).admission;
      b == a || b.generation == a.generation + 1
    ensures Apply(cfg, db, t).admission != db.admission ==> t.event.Seal? || t.event.Resume?
  {
    hide Called, Purchased, Resized, Reaped, Reported, Decommissioned, OnNode, Registered, Forgotten, Observed;
    if OnlyLeases(t.event) {
      LeaseEventsFrame(cfg, db, t);
    } else if NodeEvents(t.event) {
      NodeEventsFrame(cfg, db, t);
    } else if t.event.Observe? {
      ObservedFrame(db, t.event.obs, t.now);
    }
  }

  lemma ObservedFrame(db: Ledger, obs: Observation, now: int)
    ensures Observed(db, obs, now).admission == db.admission && Observed(db, obs, now).barrier == db.barrier
  {
    hide Current, NodeNamed, Extended;
  }

  lemma {:induction false} AdmissionOnlyRises(cfg: Config, db: Ledger, run: seq<Tick>, a: nat, b: nat)
    requires ValidConfig(cfg) && a <= b <= |run|
    ensures
      var x, y := StateAt(cfg, db, run, a).admission, StateAt(cfg, db, run, b).admission;
      x.generation <= y.generation && (x.generation == y.generation ==> x == y)
    decreases b - a
  {
    hide Apply;
    if a < b {
      AdmissionOnlyRises(cfg, db, run, a, b - 1);
      StepMovesAdmission(cfg, StateAt(cfg, db, run, b - 1), run[b - 1]);
    }
  }

  /** A request whose generation no later reopening can reach: one in force or past, or the next of a seal. */
  predicate SafeRequest(a: Admission, generation: nat)
  {
    generation <= a.generation || (a.sealed && generation == a.generation + 1)
  }

  /** If the seal a safe request named holds later, the deployment was sealed at every moment in between. */
  lemma SealedThroughout(cfg: Config, db: Ledger, run: seq<Tick>, r: nat, k: nat, generation: nat, m: nat)
    requires ValidConfig(cfg) && r <= m <= k <= |run|
    requires SafeRequest(StateAt(cfg, db, run, r).admission, generation)
    requires StateAt(cfg, db, run, k).admission.sealed && StateAt(cfg, db, run, k).admission.generation == generation
    ensures StateAt(cfg, db, run, m).admission.sealed
  {
    hide StateAt;
    AdmissionOnlyRises(cfg, db, run, r, m);
    AdmissionOnlyRises(cfg, db, run, m, k);
  }

  /** A sealed deployment sells nothing. */
  lemma {:induction false} SealedSellsNothing(cfg: Config, db: Ledger, run: seq<Tick>, r: nat, k: nat)
    requires ValidConfig(cfg) && Ready(db) && r <= k <= |run|
    requires forall m :: r <= m < k ==> StateAt(cfg, db, run, m).admission.sealed
    ensures |StateAt(cfg, db, run, k).leases| == |StateAt(cfg, db, run, r).leases|
    decreases k - r
  {
    hide Apply, Ready;
    if r < k {
      SealedSellsNothing(cfg, db, run, r, k - 1);
      var before, after := StateAt(cfg, db, run, k - 1), StateAt(cfg, db, run, k);
      RunKeepsBooks(cfg, db, run, k - 1);
      ReadyLedger(before);
      if |after.leases| > |before.leases| {
        NewRowHasHome(cfg, before, run[k - 1], |before.leases|);
      } else if |before.leases| > 0 {
        StepMovesRowsLawfully(cfg, before, run[k - 1], 0);
      }
    }
  }

  /** The barrier a request created is the one in force from then to `k`. */
  ghost predicate RequestedAt(cfg: Config, db: Ledger, run: seq<Tick>, r: nat, k: nat)
    requires ValidConfig(cfg) && r < k <= |run|
  {
    && run[r].event.RequestBarrier? && ReplacesBarrier(StateAt(cfg, db, run, r), run[r].event)
    && forall m :: r < m < k ==> !ReplacesBarrier(StateAt(cfg, db, run, m), run[m].event)
  }

  predicate ReplacesBarrier(db: Ledger, e: Event)
  {
    || (e.RequestBarrier? && (db.barrier.None? || db.barrier.value.generation != e.generation))
    || (e.DropBarrier? && db.barrier.Some? && db.barrier.value.id == e.barrier)
  }

  lemma StepKeepsBarrier(cfg: Config, db: Ledger, t: Tick)
    requires ValidConfig(cfg)
    ensures !ReplacesBarrier(db, t.event) ==> Apply(cfg, db, t).barrier == db.barrier
  {
    hide Called, Purchased, Resized, Reaped, Reported, Decommissioned, OnNode, Registered, Forgotten, Observed;
    if OnlyLeases(t.event) {
      LeaseEventsFrame(cfg, db, t);
    } else if NodeEvents(t.event) {
      NodeEventsFrame(cfg, db, t);
    } else if t.event.Observe? {
      ObservedFrame(db, t.event.obs, t.now);
    }
  }

  lemma {:induction false} BarrierStands(cfg: Config, db: Ledger, run: seq<Tick>, r: nat, k: nat)
    requires ValidConfig(cfg) && r < k <= |run| && RequestedAt(cfg, db, run, r, k)
    ensures StateAt(cfg, db, run, k).barrier == Some(Barrier(run[r].event.barrier, run[r].event.generation, run[r].event.actor))
    decreases k
  {
    hide Apply;
    var before, t := StateAt(cfg, db, run, k - 1), run[k - 1];
    if r == k - 1 {
      RequestReplaces(cfg, before, t);
    } else {
      BarrierStands(cfg, db, run, r, k - 1);
      StepKeepsBarrier(cfg, before, t);
    }
  }

  /** A barrier in force was requested at some point of the run, and has stood since. */
  lemma {:induction false} BarrierWasRequested(cfg: Config, db: Ledger, run: seq<Tick>, k: nat) returns (r: nat)
    requires ValidConfig(cfg) && k <= |run| && db.barrier.None? && StateAt(cfg, db, run, k).barrier.Some?
    ensures r < k && RequestedAt(cfg, db, run, r, k)
    ensures StateAt(cfg, db, run, k).barrier.value.generation == run[r].event.generation
  {
    hide Apply;
    var before, t := StateAt(cfg, db, run, k - 1), run[k - 1];
    if ReplacesBarrier(before, t.event) {
      RequestReplaces(cfg, before, t);
      r := k - 1;
    } else {
      StepKeepsBarrier(cfg, before, t);
      r := BarrierWasRequested(cfg, db, run, k - 1);
    }
  }

  lemma RequestReplaces(cfg: Config, db: Ledger, t: Tick)
    requires ValidConfig(cfg) && ReplacesBarrier(db, t.event)
    ensures
      var after := Apply(cfg, db, t);
      && after.runs == map[]
      && (t.event.DropBarrier? ==> after.barrier.None?)
      && (t.event.RequestBarrier? ==> after.barrier == Some(Barrier(t.event.barrier, t.event.generation, t.event.actor)))
  {
  }

  /** When the fleet is clear and its barrier's request was safe, then since the request the deployment was
      sealed at every moment and no lease was inserted, and to each expected host nothing was launched, nor did it
      register or answer otherwise, since a first empty answer taken after the request. */
  lemma ClearMeansNothingSold(cfg: Config, db: Ledger, run: seq<Tick>, r: nat, k: nat)
    requires ValidConfig(cfg) && Ready(db) && db.runs == map[] && r < k <= |run|
    requires RequestedAt(cfg, db, run, r, k) && SafeRequest(StateAt(cfg, db, run, r).admission, run[r].event.generation)
    requires FleetClear(StateAt(cfg, db, run, k))
    ensures forall m :: r <= m <= k ==> StateAt(cfg, db, run, m).admission.sealed
    ensures |StateAt(cfg, db, run, k).leases| == |StateAt(cfg, db, run, r).leases|
    ensures forall n :: n in StateAt(cfg, db, run, k).nodes && n.decommissioned.None? ==>
      exists i :: r < i < k && QuietSince(cfg, db, run, i, k, n.name)
  {
    hide StateAt, Ready, SafeRequest, ProvenBy, ReplacesBarrier;
    BarrierStands(cfg, db, run, r, k);
    forall m | r <= m <= k ensures StateAt(cfg, db, run, m).admission.sealed {
      SealedThroughout(cfg, db, run, r, k, run[r].event.generation, m);
    }
    SealedSellsNothing(cfg, db, run, r, k);
    forall n | n in StateAt(cfg, db, run, k).nodes && n.decommissioned.None?
      ensures exists i :: r < i < k && QuietSince(cfg, db, run, i, k, n.name)
    {
      var i := ProvedSince(cfg, db, run, r, k, n);
      assert QuietSince(cfg, db, run, i, k, n.name);
    }
  }

  /** From this recorded empty answer on, nothing was launched to the host, it did not register, and no answer
      or arrival contradicted it. */
  ghost predicate QuietSince(cfg: Config, db: Ledger, run: seq<Tick>, i: nat, k: nat, h: Host)
    requires ValidConfig(cfg) && i < k <= |run|
  {
    && RecordsEmpty(StateAt(cfg, db, run, i), run[i].event, h)
    && forall m :: i <= m < k ==> !EndsRun(StateAt(cfg, db, run, m), run[m].event, h) && !MovesFence(run[m].event, h)
  }

  lemma ProvedSince(cfg: Config, db: Ledger, run: seq<Tick>, r: nat, k: nat, n: Node) returns (i: nat)
    requires ValidConfig(cfg) && Ready(db) && db.runs == map[] && r < k <= |run| && RequestedAt(cfg, db, run, r, k)
    requires n in StateAt(cfg, db, run, k).nodes && ProvenBy(StateAt(cfg, db, run, k), n)
    ensures r < i < k && QuietSince(cfg, db, run, i, k, n.name)
  {
    hide StateAt, Ready, ProvenBy, MovesFence, AnswersNow, Decommissioning;
    RunKeepsBooks(cfg, db, run, k);
    ReadyLedger(StateAt(cfg, db, run, k));
    NodeNamedUnique(StateAt(cfg, db, run, k).nodes, n);
    var j;
    i, j := ProofIsTwoAnswers(cfg, db, run, k, n.name);
    assert EndsRun(StateAt(cfg, db, run, r), run[r].event, n.name);
  }
}

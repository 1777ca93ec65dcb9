/** The barrier's transactions and its report, as they run. */
module BarrierStore {
  import opened Placement
  import opened Catalogue
  import opened LedgerState
  import opened Floors
  import opened Barriers
  import opened Safety
  import opened BarrierRuns

  /** Advances one host's launch fence; a host with no row has none. */
  method BumpDispatch(store: Store, h: Host) returns (generation: nat)
    modifies store
    ensures store.db == BumpedDispatch(old(store.db), h)
    ensures generation == match NodeNamed(store.db.nodes, h) case Some(n) => n.dispatch case None => 0
  {
    var i := NodeIndex(store.db.nodes, h);
    if i == |store.db.nodes| {
      return 0;
    }
    var n := store.db.nodes[i];
    generation := n.dispatch + 1;
    store.db := store.db.(nodes := store.db.nodes[i := n.(dispatch := generation)]);
    NodeIndexIs(store.db.nodes, h, i);
  }

  /** Records that somebody wants the fleet proved clear; a second waiter under one generation joins the first. */
  method RequestComputeBarrier(store: Store, generation: nat, id: string, actor: string) returns (barrier: Barrier)
    modifies store
    ensures store.db == Requested(old(store.db), generation, id, actor)
    ensures store.db.barrier == Some(barrier) && barrier.generation == generation
  {
    if store.db.barrier.Some? && store.db.barrier.value.generation == generation {
      return store.db.barrier.value;
    }
    barrier := Barrier(id, generation, actor);
    store.db := store.db.(runs := map[]);
    store.db := store.db.(barrier := Some(barrier));
  }

  /** Removes a request, fenced on its id, and its observations with it. */
  method DropComputeBarrier(store: Store, id: string)
    modifies store
    ensures store.db == Dropped(old(store.db), id)
  {
    if store.db.barrier.None? || store.db.barrier.value.id != id {
      return;
    }
    store.db := store.db.(barrier := None);
    store.db := store.db.(runs := map[]);
  }

  /** Stores one fenced answer, or ends the run. */
  method RecordBarrierObservation(store: Store, obs: Observation, now: int)
    modifies store
    ensures store.db == Observed(old(store.db), obs, now)
  {
    hide NodeNamed;
    if store.db.barrier.None? || store.db.barrier.value.id != obs.barrier {
      return;
    }
    var host := NodeNamed(store.db.nodes, obs.node);
    if host.None? {
      return;
    }
    var fence := host.value;
    if fence.epoch != obs.epoch || fence.dispatch != obs.dispatch || !obs.empty {
      store.db := store.db.(runs := store.db.runs - {obs.node});
      return;
    }
    var since := now;
    if obs.node in store.db.runs {
      var row := store.db.runs[obs.node];
      if row.barrier == obs.barrier && row.epoch == fence.epoch && row.dispatch == fence.dispatch {
        since := row.emptySince;
      }
    }
    store.db := store.db.(runs := store.db.runs[obs.node := EmptyRun(obs.barrier, fence.epoch, fence.dispatch, since, now)]);
  }

  /** Discards a host's run when a registration begins, reading before it writes. */
  method InvalidateBarrierRun(store: Store, h: Host)
    modifies store
    ensures store.db == Invalidated(old(store.db), h)
  {
    if h !in store.db.runs {
      assert store.db.runs - {h} == store.db.runs;
      return;
    }
    store.db := store.db.(runs := store.db.runs - {h});
  }

  method InvalidateEveryBarrierRun(store: Store)
    modifies store
    ensures store.db == AllInvalidated(old(store.db))
  {
    if store.db.runs != map[] {
      store.db := store.db.(runs := map[]);
    }
  }

  /** Whether one host is established as running nothing, inside this transaction. */
  method ProvedTx(db: Ledger, h: Host) returns (proved: bool)
    ensures proved == Proved(db, h)
  {
    hide NodeNamed;
    if db.barrier.None? || !db.admission.sealed || db.admission.generation != db.barrier.value.generation {
      return false;
    }
    var host := NodeNamed(db.nodes, h);
    if host.None? || h !in db.runs || db.runs[h].barrier != db.barrier.value.id {
      return false;
    }
    var row, fence := db.runs[h], host.value;
    return row.epoch == fence.epoch && row.dispatch == fence.dispatch && !ReportsCompute(db, fence) &&
           row.observedAt >= row.emptySince + GRACE;
  }

  /** Stops expecting a host to answer, deriving the proof itself. */
  method Decommission(store: Store, h: Host, actor: string, force: bool) returns (excluded: bool, proven: bool)
    modifies store
    ensures store.db == Decommissioned(old(store.db), h, actor, force)
    ensures excluded == Decommissioning(old(store.db), h, actor, force).Excluded?
    ensures proven == (excluded && Proved(old(store.db), h))
  {
    hide Proved, Used;
    var i := NodeIndex(store.db.nodes, h);
    if i == |store.db.nodes| {
      return false, false;
    }
    var n := store.db.nodes[i];
    if Outstanding(store.db, h) > 0 || (n.live && !force) {
      return false, false;
    }
    proven := ProvedTx(store.db, h);
    if !proven && !force {
      return false, false;
    }
    excluded := true;
    var gone := n.(decommissioned := Some(Catalogue.Decommission(proven, actor)), drained := true, live := false);
    store.db := store.db.(nodes := store.db.nodes[i := gone]);
    store.db := store.db.(runs := store.db.runs - {h});
  }

  // ---- The report ----

  /** One expected host's part of the fleet's answer. */
  function PartOf(db: Ledger, n: Node): HostClearance { HostClearance(n.name, ClearanceOf(db, n)) }

  ghost predicate Reports(db: Ledger, nodes: seq<Node>, c: FleetClearance)
  {
    && (forall x :: x in c.nodes <==> exists n :: n in nodes && n.decommissioned.None? && x == PartOf(db, n))
    && (forall h :: h in c.excluded <==> exists n :: n in nodes && n.decommissioned.Some? && h == n.name)
  }

  /** The fleet's answer, from one snapshot: every expected host, and every host a person removed. */
  method ComputeClear(db: Ledger) returns (c: FleetClearance)
    ensures c.requested == db.barrier.Some?
    ensures c.requested ==> c.generation == db.barrier.value.generation
    ensures c.admissionSealed == db.admission.sealed && c.admissionGeneration == db.admission.generation
    ensures Reports(db, db.nodes, c)
  {
    hide PartOf;
    var generation := if db.barrier.Some? then db.barrier.value.generation else 0;
    c := FleetClearance(db.barrier.Some?, generation, db.admission.generation, db.admission.sealed, [], []);
    for i := 0 to |db.nodes|
      invariant c == FleetClearance(db.barrier.Some?, generation, db.admission.generation, db.admission.sealed, c.nodes, c.excluded)
      invariant Reports(db, db.nodes[..i], c)
    {
      var n := db.nodes[i];
      assert db.nodes[..i + 1] == db.nodes[..i] + [n];
      ghost var was := c;
      if n.decommissioned.Some? {
        c := c.(excluded := c.excluded + [n.name]);
      } else {
        c := c.(nodes := c.nodes + [PartOf(db, n)]);
      }
      ReportsOneMore(db, db.nodes[..i], n, was, c);
    }
    assert db.nodes[..|db.nodes|] == db.nodes;
  }

  lemma ReportsOneMore(db: Ledger, nodes: seq<Node>, n: Node, was: FleetClearance, c: FleetClearance)
    requires Reports(db, nodes, was)
    requires c == if n.decommissioned.Some? then was.(excluded := was.excluded + [n.name]) else was.(nodes := was.nodes + [PartOf(db, n)])
    ensures Reports(db, nodes + [n], c)
  {
    hide PartOf;
    forall x ensures x in c.nodes <==> exists m :: m in nodes + [n] && m.decommissioned.None? && x == PartOf(db, m) {
      assert x in was.nodes <==> exists m :: m in nodes && m.decommissioned.None? && x == PartOf(db, m);
      assert n in nodes + [n];
    }
    forall h ensures h in c.excluded <==> exists m :: m in nodes + [n] && m.decommissioned.Some? && h == m.name {
      assert h in was.excluded <==> exists m :: m in nodes && m.decommissioned.Some? && h == m.name;
      assert n in nodes + [n];
    }
  }

  /** The report says clear exactly when every expected host is proved under the seal in force, and stale exactly
      when a barrier stands whose seal is not in force. */
  lemma ReportIsClear(db: Ledger, c: FleetClearance)
    requires c.requested == db.barrier.Some? && (c.requested ==> c.generation == db.barrier.value.generation)
    requires c.admissionSealed == db.admission.sealed && c.admissionGeneration == db.admission.generation
    requires Reports(db, db.nodes, c)
    ensures c.Clear() <==> FleetClear(db)
    ensures c.Stale() <==> db.barrier.Some? && (!db.admission.sealed || db.admission.generation != db.barrier.value.generation)
  {
    if c.Clear() {
      forall n | n in db.nodes && n.decommissioned.None? ensures ProvenBy(db, n) {
        assert PartOf(db, n) in c.nodes;
      }
    }
    if FleetClear(db) {
      forall i | 0 <= i < |c.nodes| ensures c.nodes[i].state == ClearProved {
        assert c.nodes[i] in c.nodes;
      }
    }
  }

  /** A decommission's own proof and the fleet's report never disagree about a host. */
  lemma ProofsAgree(db: Ledger, n: Node)
    requires ValidNodes(db.nodes) && n in db.nodes
    ensures Proved(db, n.name) <==> SealHolds(db) && ClearanceOf(db, n) == ClearProved
  {
    NodeNamedUnique(db.nodes, n);
  }

  /** The report never says to wait for a host that cannot answer, never buries one that says it is running
      something, and always says something. */
  lemma NeverWaitsInVain(db: Ledger, n: Node)
    requires db.barrier.Some?
    ensures ClearanceOf(db, n) == Running <==> ReportsCompute(db, n)
    ensures ClearanceOf(db, n) == ClearProved <==> ProvenBy(db, n)
    ensures ClearanceOf(db, n) in {Settling, Waiting} ==> n.live
    ensures ClearanceOf(db, n) == Waiting ==> !(0 < n.wire < BARRIER_WIRE)
    ensures ClearanceOf(db, n) == Unreachable ==> !n.live
    ensures ClearanceOf(db, n) != Unknown
  {
  }

  /** The states that block, what is running first. */
  const BLOCKING: seq<Clearance> := [Running, BelowProtocol, Unreachable, Waiting, Settling, Unknown]

  function InState(nodes: seq<HostClearance>, want: Clearance): seq<HostClearance>
  {
    if nodes == [] then []
    else InState(nodes[..|nodes| - 1], want) + if nodes[|nodes| - 1].state == want then [nodes[|nodes| - 1]] else []
  }

  /** The hosts in each of some states, in the states' order. */
  function InStates(nodes: seq<HostClearance>, states: seq<Clearance>): seq<HostClearance>
  {
    if states == [] then [] else InStates(nodes, states[..|states| - 1]) + InState(nodes, states[|states| - 1])
  }

  /** Lists the hosts that are not proved, state by state. */
  method Blocking(c: FleetClearance) returns (out: seq<HostClearance>)
    ensures out == InStates(c.nodes, BLOCKING)
  {
    out := [];
    var states := BLOCKING;
    for s := 0 to |states|
      invariant out == InStates(c.nodes, states[..s])
    {
      ghost var start := out;
      for i := 0 to |c.nodes|
        invariant out == start + InState(c.nodes[..i], states[s])
      {
        assert c.nodes[..i + 1][..i] == c.nodes[..i];
        if c.nodes[i].state == states[s] {
          out := out + [c.nodes[i]];
        }
      }
      assert c.nodes[..|c.nodes|] == c.nodes;
      assert states[..s + 1][..s] == states[..s];
    }
    assert states[..|states|] == states;
  }

  function CountOf(nodes: seq<HostClearance>, x: HostClearance): nat { multiset(nodes)[x] }

  lemma {:induction false} InStateCounts(nodes: seq<HostClearance>, want: Clearance, x: HostClearance)
    ensures CountOf(InState(nodes, want), x) == if x.state == want then CountOf(nodes, x) else 0
  {
    if nodes != [] {
      var front, last := nodes[..|nodes| - 1], nodes[|nodes| - 1];
      assert nodes == front + [last];
      InStateCounts(front, want, x);
    }
  }

  lemma {:induction false} InStatesCounts(nodes: seq<HostClearance>, states: seq<Clearance>, x: HostClearance)
    requires Distinct(states)
    ensures CountOf(InStates(nodes, states), x) == if x.state in states then CountOf(nodes, x) else 0
  {
    if states != [] {
      var front, last := states[..|states| - 1], states[|states| - 1];
      assert states == front + [last] && last !in front;
      InStatesCounts(nodes, front, x);
      InStateCounts(nodes, last, x);
    }
  }

  /** Blocking names exactly the expected hosts that are not proved, each as often as the report does. */
  lemma BlockingIsExact(nodes: seq<HostClearance>, x: HostClearance)
    ensures CountOf(InStates(nodes, BLOCKING), x) == if x.state == ClearProved then 0 else CountOf(nodes, x)
  {
    hide InStates, CountOf;
    InStatesCounts(nodes, BLOCKING, x);
    assert x.state != ClearProved ==> x.state in BLOCKING by {
      match x.state
      case Running => assert BLOCKING[0] == x.state;
      case BelowProtocol => assert BLOCKING[1] == x.state;
      case Unreachable => assert BLOCKING[2] == x.state;
      case Waiting => assert BLOCKING[3] == x.state;
      case Settling => assert BLOCKING[4] == x.state;
      case Unknown => assert BLOCKING[5] == x.state;
      case ClearProved =>
    }
  }

  /** What an operator should look at first. */
  function Urgency(state: Clearance): nat
  {
    match state
    case Running => 0
    case BelowProtocol => 1
    case Unreachable => 2
    case Waiting => 3
    case Settling => 4
    case Unknown => 5
    case ClearProved => 6
  }

  lemma {:induction false} InStateOnly(nodes: seq<HostClearance>, want: Clearance)
    ensures forall x :: x in InState(nodes, want) ==> x.state == want
  {
    if nodes != [] {
      InStateOnly(nodes[..|nodes| - 1], want);
    }
  }

  lemma {:induction false} InStatesOrder(nodes: seq<HostClearance>, states: seq<Clearance>)
    requires forall i, j :: 0 <= i < j < |states| ==> Urgency(states[i]) < Urgency(states[j])
    ensures
      var out := InStates(nodes, states);
      && (forall x :: x in out ==> x.state in states)
      && forall i, j :: 0 <= i < j < |out| ==> Urgency(out[i].state) <= Urgency(out[j].state)
  {
    hide InState, Urgency;
    if states != [] {
      var front, last := states[..|states| - 1], states[|states| - 1];
      assert states == front + [last];
      InStatesOrder(nodes, front);
      InStateOnly(nodes, last);
      var early, late := InStates(nodes, front), InState(nodes, last);
      assert InStates(nodes, states) == early + late;
      forall i, j | 0 <= i < |early| && 0 <= j < |late| ensures Urgency(early[i].state) <= Urgency(late[j].state) {
        assert early[i] in early && late[j] in late;
      }
      forall i, j | 0 <= i < j < |late| ensures late[i].state == late[j].state {
        assert late[i] in late && late[j] in late;
      }
    }
  }

  /** And names first what is running, then what is too old to answer, out of contact, waited for and settling. */
  lemma BlockingOrder(nodes: seq<HostClearance>)
    ensures
      var out := InStates(nodes, BLOCKING);
      forall i, j :: 0 <= i < j < |out| ==> Urgency(out[i].state) <= Urgency(out[j].state)
  {
    hide InStates;
    InStatesOrder(nodes, BLOCKING);
  }

  // ---- Admission ----

  method SealAdmission(store: Store, presented: int, provenance: string, keepExisting: bool)
    modifies store
    ensures store.db == Sealing(old(store.db), presented, provenance, keepExisting)
  {
    if provenance != LOCAL_DOWN && provenance != OPERATOR {
      return;
    }
    var current := store.db.admission;
    if keepExisting && current.sealed && current.provenance == provenance {
      return;
    }
    if current.generation != presented {
      return;
    }
    store.db := store.db.(admission := Admission(true, current.generation + 1, provenance));
  }

  method ResumeAdmission(store: Store, presented: int, clears: string)
    modifies store
    ensures store.db == Resuming(old(store.db), presented, clears)
  {
    var current := store.db.admission;
    if !current.sealed || current.generation != presented || (clears != "" && current.provenance != clears) {
      return;
    }
    store.db := store.db.(admission := Admission(false, current.generation + 1, ""));
  }
}

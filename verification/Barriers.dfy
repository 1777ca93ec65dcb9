/**
 The compute barrier's tables: launch and registration fences, admission, the
 durable request, each host's continuous empty run, and what they add up to.
 */
module Barriers {
  import opened Placement
  import opened Catalogue
  import opened LedgerState
  import opened Leases

  /** How far apart a run's first and last empty answers must be. */
  const GRACE := 5 * MINUTE
  /** The oldest wire that can answer an inventory command. */
  const BARRIER_WIRE := 14

  // ---- Hosts ----

  /** What a host reports when it registers. */
  datatype Registration = Registration(
    name: Host,
    provider: Provider,
    site: string,
    vcpu: int,
    memory: int,
    shapes: seq<Shape>,
    wire: nat,
    architectures: seq<string>,
    incarnation: string,
    drained: bool)

  function RowOf(r: Registration, epoch: nat, dispatch: nat): Node
  {
    Node(r.name, r.provider, r.site, r.vcpu, r.memory, r.shapes, r.wire, r.architectures, r.incarnation,
         true, r.drained, epoch, dispatch, None)
  }

  /** An accepted registration: the epoch always moves, and a host that comes back is a member again. */
  function Registered(db: Ledger, r: Registration): Ledger
  {
    var i := NodeIndex(db.nodes, r.name);
    if i < |db.nodes|
    then db.(nodes := db.nodes[i := RowOf(r, db.nodes[i].epoch + 1, db.nodes[i].dispatch)])
    else db.(nodes := db.nodes + [RowOf(r, 1, 0)])
  }

  /** Changes one host's row, where there is one. */
  function OnNode(db: Ledger, h: Host, change: Node -> Node): Ledger
  {
    var i := NodeIndex(db.nodes, h);
    if i < |db.nodes| then db.(nodes := db.nodes[i := change(db.nodes[i])]) else db
  }

  /** Advances the launch fence before the launch enters the host's queue. */
  function BumpedDispatch(db: Ledger, h: Host): Ledger
  {
    OnNode(db, h, (n: Node) => n.(dispatch := n.dispatch + 1))
  }

  function Gone(db: Ledger, h: Host, epoch: int): Ledger
  {
    OnNode(db, h, (n: Node) => if n.epoch == epoch then n.(live := false) else n)
  }

  function Withdrawn(db: Ledger, h: Host, epoch: int, incarnation: string): Ledger
  {
    OnNode(db, h, (n: Node) => if n.epoch == epoch && n.incarnation == incarnation then n.(live := false) else n)
  }

  function Draining(db: Ledger, h: Host, epoch: int, incarnation: string): Ledger
  {
    OnNode(db, h, (n: Node) => if n.epoch == epoch && n.incarnation == incarnation then n.(drained := true) else n)
  }

  /** A control plane that has just started has no judgement about any host. */
  function Forgotten(db: Ledger): Ledger
  {
    db.(nodes := seq(|db.nodes|, i requires 0 <= i < |db.nodes| => db.nodes[i].(live := false)), inventory := map[])
  }

  // ---- Admission ----

  const LOCAL_DOWN := "local-down"
  const OPERATOR := "operator"

  /** Sealing moves the generation, unless the caller only wanted it sealed by its own kind. */
  function Sealing(db: Ledger, presented: int, provenance: string, keepExisting: bool): Ledger
  {
    if provenance != LOCAL_DOWN && provenance != OPERATOR then db
    else if keepExisting && db.admission.sealed && db.admission.provenance == provenance then db
    else if db.admission.generation != presented then db
    else db.(admission := Admission(true, db.admission.generation + 1, provenance))
  }

  /** Resuming clears only a seal the caller is entitled to clear. */
  function Resuming(db: Ledger, presented: int, clears: string): Ledger
  {
    if !db.admission.sealed then db
    else if db.admission.generation != presented then db
    else if clears != "" && db.admission.provenance != clears then db
    else db.(admission := Admission(false, db.admission.generation + 1, ""))
  }

  // ---- The request ----

  /** Whether a request joins the barrier in force instead of replacing it. */
  predicate Joins(db: Ledger, generation: int)
  {
    db.barrier.Some? && db.barrier.value.generation == generation
  }

  /** A new barrier takes every earlier observation with it. */
  function Requested(db: Ledger, generation: nat, id: string, actor: string): Ledger
  {
    if Joins(db, generation) then db
    else db.(barrier := Some(Barrier(id, generation, actor)), runs := map[])
  }

  predicate InForce(db: Ledger, id: string) { db.barrier.Some? && db.barrier.value.id == id }

  function Dropped(db: Ledger, id: string): Ledger
  {
    if InForce(db, id) then db.(barrier := None, runs := map[]) else db
  }

  // ---- Observations ----

  /** One host's answer, with the fence captured before it was asked. */
  datatype Observation = Observation(node: Host, barrier: string, epoch: int, dispatch: int, empty: bool)

  /** The answer is to the barrier in force, about the host as it now stands. */
  predicate Current(db: Ledger, obs: Observation)
  {
    && InForce(db, obs.barrier)
    && NodeNamed(db.nodes, obs.node).Some?
    && NodeNamed(db.nodes, obs.node).value.epoch == obs.epoch
    && NodeNamed(db.nodes, obs.node).value.dispatch == obs.dispatch
  }

  predicate SameRun(r: EmptyRun, barrier: string, n: Node)
  {
    r.barrier == barrier && r.epoch == n.epoch && r.dispatch == n.dispatch
  }

  /** A run keeps its start only where every part of its identity matches. */
  function Extended(db: Ledger, h: Host, barrier: string, n: Node, now: int): EmptyRun
  {
    EmptyRun(barrier, n.epoch, n.dispatch,
             if h in db.runs && SameRun(db.runs[h], barrier, n) then db.runs[h].emptySince else now, now)
  }

  /** A current empty answer extends the run or starts one; a stale or non-empty one ends it. */
  function Observed(db: Ledger, obs: Observation, now: int): Ledger
  {
    if !InForce(db, obs.barrier) || NodeNamed(db.nodes, obs.node).None? then db
    else if !Current(db, obs) || !obs.empty then db.(runs := db.runs - {obs.node})
    else db.(runs := db.runs[obs.node := Extended(db, obs.node, obs.barrier, NodeNamed(db.nodes, obs.node).value, now)])
  }

  function Invalidated(db: Ledger, h: Host): Ledger { db.(runs := db.runs - {h}) }

  function AllInvalidated(db: Ledger): Ledger { db.(runs := map[]) }

  // ---- Proof ----

  /** The run's own evidence: two empty answers at least the grace apart. */
  predicate Spans(r: EmptyRun) { r.observedAt >= r.emptySince + GRACE }

  predicate FencedBy(r: EmptyRun, n: Node) { r.epoch == n.epoch && r.dispatch == n.dispatch }

  /** The host's own last word, under the registration in force, is that it runs something. */
  predicate ReportsCompute(db: Ledger, n: Node)
  {
    n.name in db.inventory && db.inventory[n.name].epoch == n.epoch && db.inventory[n.name].running > 0
  }

  /** The run stored for a host under the barrier in force. */
  predicate HasRun(db: Ledger, h: Host)
  {
    h in db.runs && InForce(db, db.runs[h].barrier)
  }

  predicate ProvenBy(db: Ledger, n: Node)
  {
    HasRun(db, n.name) && FencedBy(db.runs[n.name], n) && !ReportsCompute(db, n) && Spans(db.runs[n.name])
  }

  /** The seal the barrier was taken under is still the one in force. */
  predicate SealHolds(db: Ledger)
  {
    db.barrier.Some? && db.admission.sealed && db.admission.generation == db.barrier.value.generation
  }

  /** What a decommission derives in its own transaction. */
  predicate Proved(db: Ledger, h: Host)
  {
    SealHolds(db) && NodeNamed(db.nodes, h).Some? && ProvenBy(db, NodeNamed(db.nodes, h).value)
  }

  datatype Clearance =
    | Unknown | ClearProved | Running | Settling | Waiting | Unreachable | BelowProtocol

  /** What can be said about one host. */
  function ClearanceOf(db: Ledger, n: Node): Clearance
  {
    if db.barrier.None? then Waiting
    else if ReportsCompute(db, n) then Running
    else if HasRun(db, n.name) && FencedBy(db.runs[n.name], n) then
      if ProvenBy(db, n) then ClearProved
      else if !n.live then Unreachable
      else Settling
    else if 0 < n.wire < BARRIER_WIRE then BelowProtocol
    else if !n.live then Unreachable
    else Waiting
  }

  datatype HostClearance = HostClearance(node: Host, state: Clearance)

  /** The fleet's answer, read in one snapshot. */
  datatype FleetClearance = FleetClearance(
    requested: bool, generation: nat, admissionGeneration: nat, admissionSealed: bool,
    nodes: seq<HostClearance>, excluded: seq<Host>)
  {
    /** Every expected host is proved, under the seal the barrier was taken under. */
    predicate Clear()
    {
      && requested && admissionSealed && admissionGeneration == generation
      && forall i :: 0 <= i < |nodes| ==> nodes[i].state == ClearProved
    }

    predicate Stale() { requested && (!admissionSealed || admissionGeneration != generation) }
  }

  function Outstanding(db: Ledger, h: Host): int { Used(db.leases, OnHost(h)).leases }

  datatype Exclusion = NotYet | Excluded(proven: bool, db: Ledger)

  /** Stops expecting a host to answer: never while it holds leases, and as proven only if this
      transaction proves it. Its run goes with it. */
  function Decommissioning(db: Ledger, h: Host, actor: string, force: bool): Exclusion
  {
    match NodeNamed(db.nodes, h)
    case None => NotYet
    case Some(n) =>
      if Outstanding(db, h) > 0 || (n.live && !force) then NotYet
      else
        var proven := Proved(db, h);
        if !proven && !force then NotYet
        else
          Excluded(proven, OnNode(db, h, (m: Node) => m.(decommissioned := Some(Decommission(proven, actor)), drained := true, live := false))
                           .(runs := db.runs - {h}))
  }

  function Decommissioned(db: Ledger, h: Host, actor: string, force: bool): Ledger
  {
    match Decommissioning(db, h, actor, force)
    case NotYet => db
    case Excluded(_, after) => after
  }
}

/**
 Who is in placement and whether anything may be sold, event by event and over
 every run: what each event leaves of a host's row and of admission.
 */
module FleetSteps {
  import opened Placement
  import opened Catalogue
  import opened LedgerState
  import opened Purchases
  import opened EscrowImpl
  import opened Resizing
  import opened Leases
  import opened Barriers
  import opened Runs
  import opened Safety
  import opened BarrierRuns

  // ---- Hosts ----

  /** An open lease on the host, or aimed at it and bound nowhere. */
  predicate IsHere(l: Lease, h: Host)
  {
    l.phase != Done && l.phase != Failed && h == if l.node != "" then l.node else l.target
  }

  ghost predicate HoldsLeases(db: Ledger, h: Host)
  {
    exists id: nat :: id < |db.leases| && IsHere(db.leases[id], h)
  }

  lemma OutstandingMeans(db: Ledger, h: Host)
    ensures Outstanding(db, h) > 0 <==> HoldsLeases(db, h)
  {
    hide Used, IsHere, Matches;
    var here := (l: Lease) => IsHere(l, h);
    forall l: Lease ensures here(l) <==> Matches(l, OnHost(h)) {
      HereMatches(l, h);
    }
    UsedCounts(db.leases, OnHost(h), here);
    var rows := RowsWhere(db.leases, here);
    if HoldsLeases(db, h) {
      var id: nat :| id < |db.leases| && IsHere(db.leases[id], h);
      assert id in rows;
    } else {
      assert rows == {};
    }
  }

  lemma HereMatches(l: Lease, h: Host)
    ensures IsHere(l, h) <==> Matches(l, OnHost(h))
  {
  }

  /** A host may be removed once it holds nothing: on a person's insistence, or out of contact and proved. */
  ghost predicate Removable(db: Ledger, n: Node, force: bool)
  {
    !HoldsLeases(db, n.name) && (force || (!n.live && Proved(db, n.name)))
  }

  lemma ExcludedExactlyWhen(db: Ledger, h: Host, actor: string, force: bool)
    ensures Decommissioning(db, h, actor, force).Excluded? <==>
      NodeNamed(db.nodes, h).Some? && Removable(db, NodeNamed(db.nodes, h).value, force)
  {
    hide Proved, Outstanding, NodeIndex;
    OutstandingMeans(db, h);
  }

  lemma RemovedHost(db: Ledger, g: Host, actor: string, force: bool, h: Host)
    requires NodeNamed(db.nodes, h).Some?
    ensures
      var was, now := NodeNamed(db.nodes, h).value, NodeNamed(Decommissioned(db, g, actor, force).nodes, h);
      now == Some(if g == h && Removable(db, was, force)
                  then was.(decommissioned := Some(Decommission(Proved(db, h), actor)), drained := true, live := false) else was)
  {
    hide Proved, Outstanding, NodeNamed, Removable;
    ExcludedExactlyWhen(db, g, actor, force);
    var proven := Proved(db, g);
    OnNodeHost(db, g, (m: Node) => m.(decommissioned := Some(Decommission(proven, actor)), drained := true, live := false), h);
  }

  /** Exactly what each event leaves of a host's row. A registration rewrites it, moves its epoch and makes it a member
      again; giving up on a host, its own withdrawal and drain count only under the registration it has. */
  lemma HostStep(cfg: Config, db: Ledger, t: Tick, h: Host)
    requires ValidConfig(cfg) && NodeNamed(db.nodes, h).Some?
    ensures
      var was := NodeNamed(db.nodes, h).value;
      NodeNamed(Apply(cfg, db, t).nodes, h) == Some(
        match t.event
        case Register(r) =>
          if r.name == h && h != ""
          then Node(h, r.provider, r.site, r.vcpu, r.memory, r.shapes, r.wire, r.architectures, r.incarnation, true, r.drained,
                    was.epoch + 1, was.dispatch, None)
          else was
        case GiveUpOn(node, epoch) => if node == h && epoch == was.epoch then was.(live := false) else was
        case Withdraw(node, epoch, incarnation) =>
          if node == h && epoch == was.epoch && incarnation == was.incarnation then was.(live := false) else was
        case Drain(node, epoch, incarnation) =>
          if node == h && epoch == was.epoch && incarnation == was.incarnation then was.(drained := true) else was
        case ForgetEveryNode => was.(live := false)
        case DecommissionNode(node, actor, force) =>
          if node == h && Removable(db, was, force)
          then was.(decommissioned := Some(Decommission(Proved(db, h), actor)), drained := true, live := false) else was
        case BumpDispatch(node) => if node == h then was.(dispatch := was.dispatch + 1) else was
        case _ => was)
  {
    hide Called, Purchased, Resized, Reaped, Reported, Requested, Dropped, Observed, OnNode, Registered, Forgotten, Decommissioned,
      NodeNamed, Sealing, Resuming, Removable, Proved;
    if OnlyLeases(t.event) {
      LeaseEventsFrame(cfg, db, t);
    } else {
      match t.event
      case Register(r) => RegisteredHost(db, r, h);
      case GiveUpOn(node, epoch) => OnNodeHost(db, node, (n: Node) => if n.epoch == epoch then n.(live := false) else n, h);
      case Withdraw(node, epoch, incarnation) =>
        OnNodeHost(db, node, (n: Node) => if n.epoch == epoch && n.incarnation == incarnation then n.(live := false) else n, h);
      case Drain(node, epoch, incarnation) =>
        OnNodeHost(db, node, (n: Node) => if n.epoch == epoch && n.incarnation == incarnation then n.(drained := true) else n, h);
      case ForgetEveryNode => ForgottenHost(db, h);
      case DecommissionNode(node, actor, force) => RemovedHost(db, node, actor, force, h);
      case BumpDispatch(node) => OnNodeHost(db, node, (n: Node) => n.(dispatch := n.dispatch + 1), h);
      case _ => BarrierEventsNodes(cfg, db, t);
    }
  }

  /** A host appears only by registering, at its first epoch and with nothing launched to it. */
  lemma HostsAppear(cfg: Config, db: Ledger, t: Tick, h: Host)
    requires ValidConfig(cfg) && NodeNamed(db.nodes, h).None?
    ensures NodeNamed(Apply(cfg, db, t).nodes, h) ==
      if t.event.Register? && t.event.registration.name == h && h != "" then
        var r := t.event.registration;
        Some(Node(h, r.provider, r.site, r.vcpu, r.memory, r.shapes, r.wire, r.architectures, r.incarnation, true, r.drained, 1, 0, None))
      else None
  {
    hide Called, Purchased, Resized, Reaped, Reported, Requested, Dropped, Observed, OnNode, Registered, Forgotten, Decommissioned,
      NodeNamed, Sealing, Resuming;
    if OnlyLeases(t.event) {
      LeaseEventsFrame(cfg, db, t);
    } else if t.event.Register? {
      FirstRegistration(db, t.event.registration, h);
    } else {
      NodeEventsKeepSizes(cfg, db, t);
      SameNamesNone(db.nodes, Apply(cfg, db, t).nodes, h);
    }
  }

  lemma FirstRegistration(db: Ledger, r: Registration, h: Host)
    requires NodeNamed(db.nodes, h).None?
    ensures NodeNamed(Registered(db, r).nodes, h) ==
      if r.name == h
      then Some(Node(h, r.provider, r.site, r.vcpu, r.memory, r.shapes, r.wire, r.architectures, r.incarnation, true, r.drained, 1, 0, None))
      else None
  {
    hide NodeIndex;
    var after := Registered(db, r).nodes;
    if r.name == h {
      NodeIndexIs(after, h, |db.nodes|);
    }
  }

  lemma SameNamesNone(a: seq<Node>, b: seq<Node>, h: Host)
    requires SameSizes(a, b) && NodeNamed(a, h).None?
    ensures NodeNamed(b, h).None?
  {
    hide NodeIndex;
    forall i | 0 <= i < |b| ensures b[i].name != h {
      assert a[i] in a;
    }
  }

  // ---- Admission ----

  /** The event seals admission: by one of the two kinds of caller, holding the generation in force, and not where it
      asked only that its own kind's seal stand and it does. */
  predicate Seals(a: Admission, e: Event)
  {
    && e.Seal? && (e.provenance == "local-down" || e.provenance == "operator") && e.presented == a.generation
    && !(e.keepExisting && a.sealed && a.provenance == e.provenance)
  }

  /** The event reopens admission: it holds the generation in force and clears any seal, or this kind of one. */
  predicate Reopens(a: Admission, e: Event)
  {
    e.Resume? && a.sealed && e.presented == a.generation && (e.clears == "" || e.clears == a.provenance)
  }

  lemma AdmissionStep(cfg: Config, db: Ledger, t: Tick)
    requires ValidConfig(cfg)
    ensures
      var a := db.admission;
      Apply(cfg, db, t).admission ==
        if Seals(a, t.event) then Admission(true, a.generation + 1, t.event.provenance)
        else if Reopens(a, t.event) then Admission(false, a.generation + 1, "")
        else a
  {
    hide Called, Purchased, Resized, Reaped, Reported, Decommissioned, OnNode, Registered, Forgotten, Observed;
    StepMovesAdmission(cfg, db, t);
  }

  /** A seal stands over every run until somebody entitled to clear it does. */
  lemma {:induction false} SealStandsUntilCleared(cfg: Config, db: Ledger, run: seq<Tick>, a: nat, b: nat) returns (m: nat)
    requires ValidConfig(cfg) && a <= b <= |run|
    requires StateAt(cfg, db, run, a).admission.sealed && !StateAt(cfg, db, run, b).admission.sealed
    ensures a <= m < b && Reopens(StateAt(cfg, db, run, m).admission, run[m].event)
    decreases b - a
  {
    hide Apply;
    AdmissionStep(cfg, StateAt(cfg, db, run, b - 1), run[b - 1]);
    if StateAt(cfg, db, run, b - 1).admission.sealed {
      return b - 1;
    }
    m := SealStandsUntilCleared(cfg, db, run, a, b - 1);
  }

  /** And an open deployment stays open until somebody seals it, whose kind the seal then carries. */
  lemma {:induction false} OpenUntilSealed(cfg: Config, db: Ledger, run: seq<Tick>, a: nat, b: nat) returns (m: nat)
    requires ValidConfig(cfg) && a <= b <= |run|
    requires !StateAt(cfg, db, run, a).admission.sealed && StateAt(cfg, db, run, b).admission.sealed
    ensures a <= m < b && Seals(StateAt(cfg, db, run, m).admission, run[m].event)
    ensures run[m].event.provenance == StateAt(cfg, db, run, b).admission.provenance
    decreases b - a
  {
    hide Apply;
    var before := StateAt(cfg, db, run, b - 1);
    AdmissionStep(cfg, before, run[b - 1]);
    if Seals(before.admission, run[b - 1].event) {
      return b - 1;
    }
    m := OpenUntilSealed(cfg, db, run, a, b - 1);
  }
}

/**
 Why a barrier must be requested at a generation already reached: every other
 request can be outlived by a reopening, and its fleet still reads as clear.
 */
module UnsafeRequests {
  import opened Placement
  import opened Catalogue
  import opened LedgerState
  import opened Fleet
  import opened Floors
  import opened Barriers
  import opened Runs
  import opened Purchases
  import opened EscrowImpl
  import opened LeaseRuns
  import opened BarrierRuns

  ghost function End(cfg: Config, db: Ledger, run: seq<Tick>): Ledger
    requires ValidConfig(cfg)
  {
    StateAt(cfg, db, run, |run|)
  }

  lemma {:induction false} Prefix(cfg: Config, db: Ledger, a: seq<Tick>, b: seq<Tick>, k: nat)
    requires ValidConfig(cfg) && k <= |a|
    ensures StateAt(cfg, db, a + b, k) == StateAt(cfg, db, a, k)
  {
    hide Apply;
    if k > 0 {
      Prefix(cfg, db, a, b, k - 1);
    }
  }

  lemma {:induction false} Suffix(cfg: Config, db: Ledger, a: seq<Tick>, b: seq<Tick>, k: nat)
    requires ValidConfig(cfg) && k <= |b|
    ensures StateAt(cfg, db, a + b, |a| + k) == StateAt(cfg, End(cfg, db, a), b, k)
  {
    hide Apply;
    if k == 0 {
      Prefix(cfg, db, a, b, |a|);
    } else {
      Suffix(cfg, db, a, b, k - 1);
    }
  }

  lemma EndOfTwo(cfg: Config, db: Ledger, a: seq<Tick>, b: seq<Tick>)
    requires ValidConfig(cfg)
    ensures End(cfg, db, a + b) == End(cfg, End(cfg, db, a), b)
  {
    hide StateAt;
    Suffix(cfg, db, a, b, |b|);
    assert |a + b| == |a| + |b|;
  }

  lemma EndOfOne(cfg: Config, db: Ledger, t: Tick)
    requires ValidConfig(cfg)
    ensures End(cfg, db, [t]) == Apply(cfg, db, t)
  {
    hide Apply;
    assert StateAt(cfg, db, [t], 0) == db;
  }

  /** No event of a run asks for a barrier or drops one. */
  predicate Quiet(run: seq<Tick>)
  {
    forall i :: 0 <= i < |run| ==> !run[i].event.RequestBarrier? && !run[i].event.DropBarrier?
  }

  /** Sealing again and again reaches any later generation. */
  lemma {:induction false} SealUp(cfg: Config, db: Ledger, generation: nat, now: int) returns (run: seq<Tick>)
    requires ValidConfig(cfg) && db.admission.generation < generation
    ensures End(cfg, db, run) == db.(admission := Admission(true, generation, OPERATOR)) && Quiet(run)
    decreases generation - db.admission.generation
  {
    hide Apply, StateAt;
    var t := Tick(now, Seal(db.admission.generation, OPERATOR, false));
    EndOfOne(cfg, db, t);
    SealApplies(cfg, db, t.now);
    var after := Apply(cfg, db, t);
    run := [t];
    if after.admission.generation < generation {
      var rest := SealUp(cfg, after, generation, now);
      EndOfTwo(cfg, db, [t], rest);
      run := [t] + rest;
    }
  }

  lemma SealApplies(cfg: Config, db: Ledger, now: int)
    requires ValidConfig(cfg)
    ensures Apply(cfg, db, Tick(now, Seal(db.admission.generation, OPERATOR, false))) ==
      db.(admission := Admission(true, db.admission.generation + 1, OPERATOR))
  {
  }

  // ---- Every host answering empty twice ----

  function EmptyAnswer(n: Node, barrier: string): Event
  {
    Observe(Observation(n.name, barrier, n.epoch, n.dispatch, true))
  }

  lemma AnswerApplies(cfg: Config, db: Ledger, n: Node, now: int)
    requires ValidConfig(cfg) && ValidNodes(db.nodes) && n in db.nodes && db.barrier.Some?
    ensures Apply(cfg, db, Tick(now, EmptyAnswer(n, db.barrier.value.id))) ==
      db.(runs := db.runs[n.name := Extended(db, n.name, db.barrier.value.id, n, now)])
  {
    NodeNamedUnique(db.nodes, n);
    AnswerObserved(db, n, now);
  }

  lemma AnswerObserved(db: Ledger, n: Node, now: int)
    requires NodeNamed(db.nodes, n.name) == Some(n) && db.barrier.Some?
    ensures Observed(db, EmptyAnswer(n, db.barrier.value.id).obs, now) ==
      db.(runs := db.runs[n.name := Extended(db, n.name, db.barrier.value.id, n, now)])
  {
    hide NodeNamed;
  }

  /** The first `k` hosts each answer empty at one instant. */
  lemma {:induction false} AllAnswer(cfg: Config, db: Ledger, k: nat, now: int) returns (run: seq<Tick>)
    requires ValidConfig(cfg) && ValidNodes(db.nodes) && db.barrier.Some? && k <= |db.nodes|
    ensures Quiet(run)
    ensures
      var after := End(cfg, db, run);
      && after == db.(runs := after.runs)
      && (forall i :: 0 <= i < k ==>
            && db.nodes[i].name in after.runs
            && after.runs[db.nodes[i].name] == Extended(db, db.nodes[i].name, db.barrier.value.id, db.nodes[i], now))
      && (forall i :: k <= i < |db.nodes| ==>
            && (db.nodes[i].name in after.runs <==> db.nodes[i].name in db.runs)
            && (db.nodes[i].name in db.runs ==> after.runs[db.nodes[i].name] == db.runs[db.nodes[i].name]))
  {
    hide Apply, Extended;
    if k == 0 {
      return [];
    }
    var n := db.nodes[k - 1];
    var first := AllAnswer(cfg, db, k - 1, now);
    var mid, t := End(cfg, db, first), Tick(now, EmptyAnswer(n, db.barrier.value.id));
    AnswerApplies(cfg, mid, n, now);
    EndOfOne(cfg, mid, t);
    EndOfTwo(cfg, db, first, [t]);
    run := first + [t];
    SameExtension(mid, db, n.name, db.barrier.value.id, n, now);
    assert forall i :: 0 <= i < |db.nodes| && i != k - 1 ==> NamesOf(db.nodes)[i] != NamesOf(db.nodes)[k - 1];
  }

  lemma SameExtension(a: Ledger, b: Ledger, h: Host, barrier: string, n: Node, now: int)
    requires h in a.runs <==> h in b.runs
    requires h in a.runs ==> a.runs[h] == b.runs[h]
    ensures Extended(a, h, barrier, n, now) == Extended(b, h, barrier, n, now)
  {
  }

  /** From a ledger with no runs yet, the seal in place, some continuation reads as clear. */
  lemma ProveFleet(cfg: Config, db: Ledger, now: int) returns (run: seq<Tick>)
    requires ValidConfig(cfg) && ValidNodes(db.nodes) && SealHolds(db) && db.runs == map[]
    ensures FleetClear(End(cfg, db, run)) && End(cfg, db, run).leases == db.leases && Quiet(run)
  {
    hide Apply, StateAt, ValidNodes;
    var t := Tick(now, ForgetEveryNode);
    ForgetApplies(cfg, db, now);
    EndOfOne(cfg, db, t);
    var quiet := End(cfg, db, [t]);
    var first := AllAnswer(cfg, quiet, |quiet.nodes|, now);
    var half := End(cfg, quiet, first);
    var second := AllAnswer(cfg, half, |half.nodes|, now + GRACE);
    EndOfTwo(cfg, db, [t], first);
    EndOfTwo(cfg, db, [t] + first, second);
    run := [t] + first + second;
    var done := End(cfg, db, run);
    forall n | n in done.nodes ensures ProvenBy(done, n) {
      var i :| 0 <= i < |done.nodes| && done.nodes[i] == n;
      assert half.runs[quiet.nodes[i].name].emptySince == now;
    }
  }

  lemma ForgetApplies(cfg: Config, db: Ledger, now: int)
    requires ValidConfig(cfg) && ValidNodes(db.nodes)
    ensures
      var after := Apply(cfg, db, Tick(now, ForgetEveryNode));
      ValidNodes(after.nodes) && after == db.(nodes := after.nodes, inventory := map[])
  {
    assert NamesOf(Forgotten(db).nodes) == NamesOf(db.nodes);
  }

  /** The run makes the request, the barrier it created stands to the end, and the fleet then reads as clear. */
  ghost predicate ClearAfter(cfg: Config, db: Ledger, request: Event, run: seq<Tick>)
    requires ValidConfig(cfg)
  {
    run != [] && run[0].event == request && RequestedAt(cfg, db, run, 0, |run|) && FleetClear(End(cfg, db, run))
  }

  /** A request that is not safe can be outlived: for every ledger and every purchase there is a run that requests
      the barrier, makes the purchase of the ledger it was requested in while the deployment is open, and ends with
      the fleet reading as clear. */
  lemma UnsafeRequestIsOutlived(cfg: Config, db: Ledger, request: Event, buy: Event, now: int) returns (run: seq<Tick>, m: nat)
    requires ValidConfig(cfg) && Ready(db) && buy.Buy?
    requires request.RequestBarrier? && !Joins(db, request.generation) && !SafeRequest(db.admission, request.generation)
    ensures ClearAfter(cfg, db, request, run) && 0 < m < |run| && run[m].event == buy && run[m].now == now
    ensures
      var open := StateAt(cfg, db, run, m);
      && !open.admission.sealed && open.nodes == db.nodes && open.leases == db.leases
      && End(cfg, db, run).leases == Apply(cfg, open, run[m]).leases
  {
    hide Apply, StateAt, Ready, ValidNodes, FleetClear;
    var opening := OpenAfter(cfg, db, request, now);
    var open, bought := End(cfg, db, opening), Tick(now, buy);
    LeaseEventsFrame(cfg, open, bought);
    EndOfOne(cfg, open, bought);
    var sold := Apply(cfg, open, bought);
    var seals := SealUp(cfg, sold, request.generation, now);
    var sealed := End(cfg, sold, seals);
    ReadyLedger(db);
    var answers := ProveFleet(cfg, sealed, now);
    var head, tail := opening + [bought], seals + answers;
    EndOfTwo(cfg, db, opening, [bought]);
    EndOfTwo(cfg, sold, seals, answers);
    EndOfTwo(cfg, db, head, tail);
    m := |opening|;
    run := head + tail;
    Prefix(cfg, db, head, tail, m);
    Prefix(cfg, db, opening, [bought], m);
    QuietAfterRequest(cfg, db, run, opening, bought, tail);
  }

  lemma QuietAfterRequest(cfg: Config, db: Ledger, run: seq<Tick>, opening: seq<Tick>, bought: Tick, tail: seq<Tick>)
    requires ValidConfig(cfg) && run == opening + [bought] + tail && opening != [] && bought.event.Buy?
    requires Quiet(opening[1..]) && Quiet(tail) && run[0].event.RequestBarrier? && !Joins(db, run[0].event.generation)
    ensures RequestedAt(cfg, db, run, 0, |run|)
  {
    hide Apply;
    forall m | 0 < m < |run| ensures !ReplacesBarrier(StateAt(cfg, db, run, m), run[m].event) {
      if m < |opening| {
        assert run[m] == opening[1..][m - 1];
      } else if m > |opening| {
        assert run[m] == tail[m - |opening| - 1];
      }
    }
  }

  /** The request, and a resume where the deployment was sealed: open, with the generation still short. */
  lemma OpenAfter(cfg: Config, db: Ledger, request: Event, now: int) returns (run: seq<Tick>)
    requires ValidConfig(cfg)
    requires request.RequestBarrier? && !Joins(db, request.generation) && !SafeRequest(db.admission, request.generation)
    ensures |run| > 0 && run[0].event == request && Quiet(run[1..])
    ensures
      var open := End(cfg, db, run);
      && !open.admission.sealed && open.admission.generation < request.generation
      && open.barrier == Some(Barrier(request.barrier, request.generation, request.actor))
      && open.runs == map[] && open.nodes == db.nodes && open.leases == db.leases
  {
    hide StateAt;
    var t := Tick(now, request);
    EndOfOne(cfg, db, t);
    run := [t];
    var asked := Apply(cfg, db, t);
    if db.admission.sealed {
      var resume := Tick(now, Resume(db.admission.generation, ""));
      EndOfOne(cfg, asked, resume);
      EndOfTwo(cfg, db, [t], [resume]);
      run := [t, resume];
      assert run == [t] + [resume];
    }
  }

  // ---- Exactly when a clear fleet means what it says ----

  /** Whatever happens after the request, a fleet that reads as clear under its barrier was sealed throughout. */
  ghost predicate StaysSealed(cfg: Config, db: Ledger, request: Event)
    requires ValidConfig(cfg)
  {
    forall run, m :: ClearAfter(cfg, db, request, run) && 0 <= m <= |run| ==> StateAt(cfg, db, run, m).admission.sealed
  }

  /** Whatever happens after the request, a fleet that reads as clear under its barrier was sold nothing. */
  ghost predicate StaysUnsold(cfg: Config, db: Ledger, request: Event)
    requires ValidConfig(cfg)
  {
    forall run :: ClearAfter(cfg, db, request, run) ==> |End(cfg, db, run).leases| == |db.leases|
  }

  lemma SafeStaysSealed(cfg: Config, db: Ledger, request: Event, run: seq<Tick>, m: nat)
    requires ValidConfig(cfg) && request.RequestBarrier? && SafeRequest(db.admission, request.generation)
    requires ClearAfter(cfg, db, request, run) && m <= |run|
    ensures StateAt(cfg, db, run, m).admission.sealed
  {
    hide Apply, ProvenBy, RequestedAt;
    assert StateAt(cfg, db, run, 0) == db;
    BarrierStands(cfg, db, run, 0, |run|);
    SealedThroughout(cfg, db, run, 0, |run|, request.generation, m);
  }

  /** From any ledger: sealed throughout exactly when the request was safe. */
  lemma SealedExactlyWhenSafe(cfg: Config, db: Ledger, request: Event)
    requires ValidConfig(cfg) && Ready(db) && request.RequestBarrier? && !Joins(db, request.generation)
    ensures StaysSealed(cfg, db, request) <==> SafeRequest(db.admission, request.generation)
  {
    hide StateAt, Ready, ClearAfter, SafeRequest;
    if SafeRequest(db.admission, request.generation) {
      forall run, m: nat | ClearAfter(cfg, db, request, run) && 0 <= m <= |run| ensures StateAt(cfg, db, run, m).admission.sealed {
        SafeStaysSealed(cfg, db, request, run, m);
      }
    } else {
      var run, m := UnsafeRequestIsOutlived(cfg, db, request, Buy("", 0, Purchase([], [], map[])), 0);
    }
  }

  /** Headroom is a fact of the hosts and the leases alone. */
  lemma {:induction false} SameFloors(cfg: Config, a: Ledger, b: Ledger, forTier: string, free: Free, returned: Size, k: nat)
    requires ValidConfig(cfg) && k <= |cfg.tiers| && a.nodes == b.nodes && a.leases == b.leases
    ensures FloorsUpTo(cfg, a, forTier, free, returned, k) == FloorsUpTo(cfg, b, forTier, free, returned, k)
  {
    hide Used, Draw, PlanFor, OrderFor, Placeable, LabelsOf, ShareRoom, NewLeases;
    if k > 0 {
      SameFloors(cfg, a, b, forTier, free, returned, k - 1);
    }
  }

  lemma SameHeadroom(cfg: Config, a: Ledger, b: Ledger, t: Tier)
    requires ValidConfig(cfg) && ValidTier(t) && a.nodes == b.nodes && a.leases == b.leases
    ensures Headroom(cfg, a, t) == Headroom(cfg, b, t)
  {
    hide Used, Fill, PlanFor, OrderFor, Placeable, ShareAfter, FloorsUpTo;
    SameFloors(cfg, a, b, t.name, FreeRows(cfg, Placeable(a.nodes), a.leases), Size(0, 0), |cfg.tiers|);
  }

  /** After an unsafe request, whatever a tier has headroom for can be sold and the fleet still read as clear. */
  lemma UnsafeRequestIsSold(cfg: Config, db: Ledger, request: Event, t: Tier, want: nat, now: int) returns (run: seq<Tick>)
    requires ValidConfig(cfg) && Ready(db) && t in cfg.tiers && want > 0 && Headroom(cfg, db, t) > 0
    requires request.RequestBarrier? && !Joins(db, request.generation) && !SafeRequest(db.admission, request.generation)
    ensures ClearAfter(cfg, db, request, run)
    ensures |End(cfg, db, run).leases| == |db.leases| + Min(want, Headroom(cfg, db, t)) > |db.leases|
  {
    hide StateAt, Ready, ClearAfter, SafeRequest, Purchased, Headroom, RolledBack;
    TierNamedUnique(cfg, t);
    var m;
    run, m := UnsafeRequestIsOutlived(cfg, db, request, Buy(t.name, want, Purchase([], [], map[])), now);
    var open := StateAt(cfg, db, run, m);
    SameHeadroom(cfg, open, db, t);
    UnprotectedEscrowGrantsHeadroom(cfg, open, t, want, now);
  }

  /** From any ledger with headroom left in some tier: sold nothing exactly when the request was safe. */
  lemma UnsoldExactlyWhenSafe(cfg: Config, db: Ledger, request: Event, t: Tier)
    requires ValidConfig(cfg) && Ready(db) && request.RequestBarrier? && !Joins(db, request.generation)
    requires t in cfg.tiers && Headroom(cfg, db, t) > 0
    ensures StaysUnsold(cfg, db, request) <==> SafeRequest(db.admission, request.generation)
  {
    hide StateAt, Ready, ClearAfter, SafeRequest, Headroom;
    if SafeRequest(db.admission, request.generation) {
      forall run | ClearAfter(cfg, db, request, run) ensures |End(cfg, db, run).leases| == |db.leases| {
        SafeStaysUnsold(cfg, db, request, run);
      }
    } else {
      var run := UnsafeRequestIsSold(cfg, db, request, t, 1, 0);
    }
  }

  lemma SafeStaysUnsold(cfg: Config, db: Ledger, request: Event, run: seq<Tick>)
    requires ValidConfig(cfg) && Ready(db) && request.RequestBarrier? && SafeRequest(db.admission, request.generation)
    requires ClearAfter(cfg, db, request, run)
    ensures |End(cfg, db, run).leases| == |db.leases|
  {
    hide Apply, Ready, ClearAfter, SafeRequest;
    forall m: nat | 0 <= m < |run| ensures StateAt(cfg, db, run, m).admission.sealed {
      SafeStaysSealed(cfg, db, request, run, m);
    }
    SealedSellsNothing(cfg, db, run, 0, |run|);
    assert StateAt(cfg, db, run, 0) == db;
  }

  // ---- A stale barrier ----

  /** The barrier in force stands to the end of the run. */
  ghost predicate Stands(cfg: Config, db: Ledger, run: seq<Tick>)
    requires ValidConfig(cfg)
  {
    forall m :: 0 <= m < |run| ==> !ReplacesBarrier(StateAt(cfg, db, run, m), run[m].event)
  }

  ghost predicate NeverClearAgain(cfg: Config, db: Ledger)
    requires ValidConfig(cfg)
  {
    forall run :: Stands(cfg, db, run) ==> !FleetClear(End(cfg, db, run))
  }

  lemma {:induction false} BarrierKept(cfg: Config, db: Ledger, run: seq<Tick>, k: nat)
    requires ValidConfig(cfg) && Stands(cfg, db, run) && k <= |run|
    ensures StateAt(cfg, db, run, k).barrier == db.barrier
  {
    hide Apply;
    if k > 0 {
      BarrierKept(cfg, db, run, k - 1);
      StepKeepsBarrier(cfg, StateAt(cfg, db, run, k - 1), run[k - 1]);
    }
  }

  lemma PassedIsNeverClear(cfg: Config, db: Ledger, run: seq<Tick>)
    requires ValidConfig(cfg) && db.barrier.Some? && !SealHolds(db) && db.barrier.value.generation <= db.admission.generation
    requires Stands(cfg, db, run)
    ensures !FleetClear(End(cfg, db, run))
  {
    hide Apply, Stands;
    BarrierKept(cfg, db, run, |run|);
    assert StateAt(cfg, db, run, 0) == db;
    AdmissionOnlyRises(cfg, db, run, 0, |run|);
  }

  /** Some continuation of a ledger whose barrier names a later generation reads as clear. */
  lemma LaterGenerationClears(cfg: Config, db: Ledger) returns (run: seq<Tick>)
    requires ValidConfig(cfg) && ValidNodes(db.nodes) && db.barrier.Some? && db.admission.generation < db.barrier.value.generation
    ensures Stands(cfg, db, run) && FleetClear(End(cfg, db, run))
  {
    hide Apply, StateAt, ValidNodes, FleetClear;
    var t := Tick(0, InvalidateEveryRun);
    EndOfOne(cfg, db, t);
    InvalidationApplies(cfg, db);
    var bare := Apply(cfg, db, t);
    var seals := SealUp(cfg, bare, db.barrier.value.generation, 0);
    var sealed := End(cfg, bare, seals);
    var answers := ProveFleet(cfg, sealed, 0);
    EndOfTwo(cfg, bare, seals, answers);
    EndOfTwo(cfg, db, [t], seals + answers);
    run := [t] + (seals + answers);
    assert Quiet(run);
  }

  lemma InvalidationApplies(cfg: Config, db: Ledger)
    requires ValidConfig(cfg)
    ensures Apply(cfg, db, Tick(0, InvalidateEveryRun)) == db.(runs := map[])
  {
  }

  /** A stale barrier means nothing any more exactly when its generation is not still to come. */
  lemma StaleForGoodExactlyWhen(cfg: Config, db: Ledger)
    requires ValidConfig(cfg) && ValidNodes(db.nodes) && db.barrier.Some? && !SealHolds(db)
    ensures NeverClearAgain(cfg, db) <==> db.barrier.value.generation <= db.admission.generation
  {
    hide StateAt, Stands, FleetClear, SealHolds, ValidNodes;
    if db.barrier.value.generation <= db.admission.generation {
      forall run | Stands(cfg, db, run) ensures !FleetClear(End(cfg, db, run)) {
        PassedIsNeverClear(cfg, db, run);
      }
    } else {
      var run := LaterGenerationClears(cfg, db);
    }
  }

  // ---- One ledger where it happens ----

  const SMALL_TIER := Tier("linux", 1, 1, Linux, 0, 0, [Docker], "", "", "", "", false, false, false)
  const SMALL_HOST := Node("host", Docker, "", 4, 4, [], 0, [], "", true, false, 1, 0, None)
  const SMALL_CONFIG := Config(4, 4, [SMALL_TIER], map[], map[], Placement.Pack, false, 1)
  const SMALL_LEDGER := Ledger([SMALL_HOST], [], [], map[], Admission(false, 0, ""), None, map[], map[])

  lemma SmallLedgerIsReady()
    ensures ValidConfig(SMALL_CONFIG) && Ready(SMALL_LEDGER)
  {
    assert NamesOf([SMALL_HOST]) == ["host"];
  }

  lemma SmallOrder()
    ensures Placeable([SMALL_HOST]) == [SMALL_HOST] && EligibleFrom(SMALL_CONFIG, [SMALL_HOST], SMALL_TIER) == [SMALL_HOST]
    ensures OrderFor(SMALL_CONFIG, [SMALL_HOST], SMALL_TIER) == ["host"]
    ensures "host" in PlanFor(SMALL_CONFIG, [SMALL_HOST], SMALL_TIER).cost
    ensures PlanFor(SMALL_CONFIG, [SMALL_HOST], SMALL_TIER).cost["host"] == Cost(1, 1, "")
  {
    hide Eligible, EligibleFrom, CostMap, RankMap, Placeable, SMALL_CONFIG, SMALL_TIER, SMALL_HOST;
    SmallEligible();
    OnePlaceable(SMALL_HOST);
    OneEligible(SMALL_CONFIG, SMALL_HOST, SMALL_TIER);
    OneCost(SMALL_HOST, SMALL_TIER);
    assert NamesOf([SMALL_HOST]) == [SMALL_HOST.name];
  }

  lemma SmallEligible()
    ensures Eligible(SMALL_CONFIG, SMALL_HOST, SMALL_TIER) && SMALL_HOST.live && !SMALL_HOST.drained && SMALL_HOST.name == "host"
    ensures NodeCost(SMALL_HOST, SMALL_TIER) == Some(Cost(1, 1, ""))
  {
  }

  lemma OnePlaceable(n: Node)
    requires n.live && !n.drained
    ensures Placeable([n]) == [n]
  {
    assert Placeable([n][..0]) == [];
  }

  lemma OneEligible(cfg: Config, n: Node, t: Tier)
    requires Eligible(cfg, n, t)
    ensures EligibleFrom(cfg, [n], t) == [n]
  {
    hide Eligible;
    assert EligibleFrom(cfg, [n][..0], t) == [];
  }

  lemma OneCost(n: Node, t: Tier)
    requires NodeCost(n, t).Some?
    ensures CostMap([n], t) == map[n.name := NodeCost(n, t).value]
  {
    hide NodeCost;
    assert CostMap([n][..0], t) == map[];
  }

  lemma SmallRoom()
    requires ValidConfig(SMALL_CONFIG)
    ensures
      var o := OfferTo(SMALL_CONFIG, SMALL_LEDGER, SMALL_TIER);
      At(o.room.free.vcpu, "host") == 4 && At(o.room.free.memory, "host") == 4 && o.room.vcpu == 4 && o.room.memory == 4
  {
    hide Used, PlanFor, OrderFor, FloorsUpTo, Placeable, EligibleFrom;
    SmallOrder();
    var rows := Placeable(SMALL_LEDGER.nodes);
    var free := FreeRows(SMALL_CONFIG, rows, []);
    UsedNone([], OnHost("host"));
    UsedNone([], Everywhere);
    assert rows[..0] == [];
    NoFloors(SMALL_CONFIG, SMALL_LEDGER, SMALL_TIER.name, free, Size(0, 0), |SMALL_CONFIG.tiers|);
  }

  lemma SmallLedgerHasRoom()
    requires ValidConfig(SMALL_CONFIG)
    ensures Headroom(SMALL_CONFIG, SMALL_LEDGER, SMALL_TIER) >= 1
  {
    hide OfferTo, PlanFor, OrderFor, RoomFor, Placeable, EligibleFrom, Used;
    SmallOrder();
    SmallRoom();
    var o := OfferTo(SMALL_CONFIG, SMALL_LEDGER, SMALL_TIER);
    RoomForMeansFits(o.plan, o.room, "host");
    assert Best(o.plan, o.room, ["host"]).Some?;
  }

  /** One host, one tier, nothing sold: asking under the next generation of an open deployment, a lease is sold and
      the fleet then reads as clear. */
  lemma SmallFleetIsSold() returns (run: seq<Tick>)
    ensures ValidConfig(SMALL_CONFIG) && ClearAfter(SMALL_CONFIG, SMALL_LEDGER, RequestBarrier(1, "barrier", "operator"), run)
    ensures |SMALL_LEDGER.leases| == 0 && |End(SMALL_CONFIG, SMALL_LEDGER, run).leases| > 0
  {
    hide Headroom, Ready, ClearAfter;
    SmallLedgerIsReady();
    SmallLedgerHasRoom();
    run := UnsafeRequestIsSold(SMALL_CONFIG, SMALL_LEDGER, RequestBarrier(1, "barrier", "operator"), SMALL_TIER, 1, 0);
  }
}

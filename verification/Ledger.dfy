/**
 The ledger: one value per table, and the sums the queries compute over it.
 A transaction is one atomic change of this value; a transaction that fails
 leaves it as it was.
 */
module LedgerState {
  import opened Placement
  import opened Catalogue

  datatype Phase =
    | Capacity | Assigned | Launching | Online | Busy
    | Custody | Teardown | Quarantine | Done | Failed
  {
    predicate Terminal() { Done? || Failed? }
  }

  /** A capacity reservation. Its identity is its row's place in the table, so a new row's is fresh.
      `target` is where the work was aimed, `node` where it was bound ("" until then). */
  datatype Lease = Lease(
    tier: string,
    target: Host,
    node: Host,
    macOSSlot: bool,
    guestOS: GuestOS,
    providers: seq<Provider>,
    provider: Option<Provider>,
    phase: Phase,
    vcpu: int,
    memory: int,
    requestedVCPU: int,
    requestedMemory: int,
    instanceType: string,
    epoch: nat,
    expiresAt: int,
    forceRelease: bool,
    failureReason: string,
    run: int,
    request: int)

  /** One archived close. */
  datatype Closing = Closing(lease: nat, tier: string, host: Host, outcome: Phase, vcpu: int, memory: int, reason: string)

  datatype Admission = Admission(sealed: bool, generation: nat, provenance: string)

  /** A durable request that the fleet be proved to run nothing. */
  datatype Barrier = Barrier(id: string, generation: nat, actor: string)

  /** One host's continuous empty run under a barrier. */
  datatype EmptyRun = EmptyRun(barrier: string, epoch: nat, dispatch: nat, emptySince: int, observedAt: int)

  /** What a host last said it was running, and under which registration. */
  datatype Inventory = Inventory(epoch: nat, running: nat)

  datatype Ledger = Ledger(
    nodes: seq<Node>,
    leases: seq<Lease>,
    history: seq<Closing>,
    releases: map<string, nat>,
    admission: Admission,
    barrier: Option<Barrier>,
    runs: map<Host, EmptyRun>,
    inventory: map<Host, Inventory>)

  /** The database handle every transaction goes through. */
  class Store {
    var db: Ledger

    constructor (db: Ledger)
      ensures this.db == db
    {
      this.db := db;
    }
  }

  /** What a call answers. */
  datatype Answer =
    | OK | NotFound | Fenced | BadTransition | UnknownTier | WrongNode | Conflict
    | GuestOSNotAllowed | WrongProvider | NotPlaced | NotPlaceable | NoCapacity
    | AdmissionSealed | ReleaseRequested | ForceHeld | Invalid

  // ---- Nodes ----

  function NodeIndex(nodes: seq<Node>, h: Host): (i: nat)
    ensures i <= |nodes|
    ensures i < |nodes| ==> nodes[i].name == h
    ensures forall j :: 0 <= j < i ==> nodes[j].name != h
  {
    if nodes == [] || nodes[0].name == h then 0 else 1 + NodeIndex(nodes[1..], h)
  }

  function NodeNamed(nodes: seq<Node>, h: Host): (n: Option<Node>)
    ensures n.Some? ==> n.value in nodes && n.value.name == h
    ensures n.None? ==> forall m :: m in nodes ==> m.name != h
  {
    var i := NodeIndex(nodes, h);
    if i < |nodes| then Some(nodes[i]) else None
  }

  lemma NodeNamedUnique(nodes: seq<Node>, n: Node)
    requires Distinct(NamesOf(nodes)) && n in nodes
    ensures NodeNamed(nodes, n.name) == Some(n)
  {
    var j :| 0 <= j < |nodes| && nodes[j] == n;
    var i := NodeIndex(nodes, n.name);
    assert i <= j;
    assert NamesOf(nodes)[i] == NamesOf(nodes)[j];
  }

  // ---- What open leases hold ----

  /** A lease is charged to the host running it, and before that to the host it is aimed at. */
  function Holder(l: Lease): Host
  {
    if l.node != "" then l.node else l.target
  }

  predicate Open(l: Lease) { !l.phase.Terminal() }

  /** Which open leases a sum is over. */
  datatype Query =
    | Everywhere
    | OnHost(host: Host)
    | InTiers(names: set<string>)
    | OutsideTiers(names: set<string>)
    | TierOnHosts(name: string, hosts: set<Host>)

  predicate Matches(l: Lease, q: Query)
  {
    && Open(l)
    && match q
       case Everywhere => true
       case OnHost(h) => Holder(l) == h
       case InTiers(names) => l.tier in names
       case OutsideTiers(names) => l.tier !in names
       case TierOnHosts(name, hosts) => l.tier == name && (Holder(l) == "" || Holder(l) in hosts)
  }

  /** What leases add up to: cores, bytes, macOS licences and how many they are. */
  datatype Usage = Usage(vcpu: int, memory: int, macOS: int, leases: int)

  const NOTHING := Usage(0, 0, 0, 0)

  function Plus(a: Usage, b: Usage): Usage
  {
    Usage(a.vcpu + b.vcpu, a.memory + b.memory, a.macOS + b.macOS, a.leases + b.leases)
  }

  function Minus(a: Usage, b: Usage): Usage
  {
    Usage(a.vcpu - b.vcpu, a.memory - b.memory, a.macOS - b.macOS, a.leases - b.leases)
  }

  function ChargeOf(l: Lease, q: Query): Usage
  {
    if Matches(l, q) then Usage(l.vcpu, l.memory, if l.macOSSlot then 1 else 0, 1) else NOTHING
  }

  /** The sums every capacity query computes, one definition for all of them. */
  function Used(leases: seq<Lease>, q: Query): Usage
  {
    if leases == [] then NOTHING
    else Plus(Used(leases[..|leases| - 1], q), ChargeOf(leases[|leases| - 1], q))
  }

  predicate Charged(l: Lease) { l.vcpu > 0 && l.memory > 0 }

  predicate AllCharged(leases: seq<Lease>)
  {
    forall l :: l in leases ==> Charged(l)
  }

  lemma {:induction false} UsedNonNegative(leases: seq<Lease>, q: Query)
    requires AllCharged(leases)
    ensures Used(leases, q).vcpu >= 0 && Used(leases, q).memory >= 0
    ensures Used(leases, q).macOS >= 0 && Used(leases, q).leases >= 0
    ensures Used(leases, q).vcpu >= Used(leases, q).leases && Used(leases, q).memory >= Used(leases, q).leases
  {
    if leases != [] {
      assert leases[|leases| - 1] in leases;
      UsedNonNegative(leases[..|leases| - 1], q);
    }
  }

  lemma {:induction false} UsedConcat(a: seq<Lease>, b: seq<Lease>, q: Query)
    ensures Used(a + b, q) == Plus(Used(a, q), Used(b, q))
  {
    if b == [] {
      assert a + b == a;
    } else {
      assert (a + b)[..|a + b| - 1] == a + b[..|b| - 1];
      UsedConcat(a, b[..|b| - 1], q);
    }
  }

  /** Rewriting one row moves every sum by exactly the difference of that row's charge. */
  lemma {:induction false} UsedUpdate(leases: seq<Lease>, i: nat, l: Lease, q: Query)
    requires i < |leases|
    ensures Used(leases[i := l], q) == Plus(Minus(Used(leases, q), ChargeOf(leases[i], q)), ChargeOf(l, q))
  {
    hide ChargeOf;
    var last := |leases| - 1;
    if i == last {
      assert leases[i := l][..last] == leases[..last];
    } else {
      assert leases[i := l][..last] == leases[..last][i := l];
      UsedUpdate(leases[..last], i, l, q);
    }
  }

  /** Every lease of a part is a lease of the whole. */
  lemma {:induction false} UsedWithin(leases: seq<Lease>, part: Query, whole: Query)
    requires AllCharged(leases)
    requires forall l :: l in leases && Matches(l, part) ==> Matches(l, whole)
    ensures Used(leases, part).vcpu <= Used(leases, whole).vcpu
    ensures Used(leases, part).memory <= Used(leases, whole).memory
    ensures Used(leases, part).leases <= Used(leases, whole).leases
  {
    if leases != [] {
      var front, last := leases[..|leases| - 1], leases[|leases| - 1];
      assert last in leases;
      UsedWithin(front, part, whole);
    }
  }

  lemma {:induction false} UsedSame(leases: seq<Lease>, a: Query, b: Query)
    requires forall l :: l in leases ==> Matches(l, a) == Matches(l, b)
    ensures Used(leases, a) == Used(leases, b)
  {
    if leases != [] {
      assert leases[|leases| - 1] in leases;
      UsedSame(leases[..|leases| - 1], a, b);
    }
  }

  /** A query nothing matches sums to nothing. */
  lemma {:induction false} UsedNone(leases: seq<Lease>, q: Query)
    requires forall l :: l in leases ==> !Matches(l, q)
    ensures Used(leases, q) == NOTHING
  {
    if leases != [] {
      assert leases[|leases| - 1] in leases;
      UsedNone(leases[..|leases| - 1], q);
    }
  }

  /** A lease of each shape at least `vcpu` by `memory` cannot be more numerous than the sum allows. */
  lemma {:induction false} UsedAtLeast(leases: seq<Lease>, q: Query, vcpu: int, memory: int)
    requires forall l :: l in leases && Matches(l, q) ==> l.vcpu >= vcpu && l.memory >= memory
    ensures Used(leases, q).leases * vcpu <= Used(leases, q).vcpu
    ensures Used(leases, q).leases * memory <= Used(leases, q).memory
  {
    hide Used;
    if leases == [] {
      UsedNone(leases, q);
    } else {
      var front, last := leases[..|leases| - 1], leases[|leases| - 1];
      assert leases == front + [last] && last in leases;
      UsedAtLeast(front, q, vcpu, memory);
      UsedConcat(front, [last], q);
      UsedOne(last, q);
      ChargedAtLeast(last, q, vcpu, Used(front, q).leases, Used(front, q).vcpu, ChargeOf(last, q).vcpu);
      ChargedAtLeast(last, q, memory, Used(front, q).leases, Used(front, q).memory, ChargeOf(last, q).memory);
    }
  }

  lemma ChargedAtLeast(l: Lease, q: Query, x: int, n: int, total: int, charge: int)
    requires n * x <= total && (if Matches(l, q) then charge >= x else charge == 0)
    ensures (n + ChargeOf(l, q).leases) * x <= total + charge
  {
    OneMore(n, x);
  }

  lemma OneMore(n: int, x: int)
    ensures (n + 1) * x == n * x + x
  {
  }

  lemma UsedOne(l: Lease, q: Query)
    ensures Used([l], q) == ChargeOf(l, q)
  {
    hide ChargeOf;
    assert [l][..0] == [];
    assert Used([], q) == NOTHING;
  }

  // ---- Counting rows ----

  /** The rows of a list that something holds of. */
  ghost function RowsWhere(leases: seq<Lease>, holds: Lease -> bool): set<nat>
  {
    set i: nat | i < |leases| && holds(leases[i])
  }

  lemma {:induction false} RowsWhereNext(leases: seq<Lease>, holds: Lease -> bool)
    requires leases != []
    ensures
      var k := |leases| - 1;
      |RowsWhere(leases, holds)| == |RowsWhere(leases[..k], holds)| + if holds(leases[k]) then 1 else 0
  {
    var k := |leases| - 1;
    var before := RowsWhere(leases[..k], holds);
    assert forall i :: i in before ==> i < k;
    assert RowsWhere(leases, holds) == if holds(leases[k]) then before + {k} else before;
  }

  /** The count a query sums is the number of rows that match it. */
  lemma {:induction false} UsedCounts(leases: seq<Lease>, q: Query, holds: Lease -> bool)
    requires forall l :: l in leases ==> (holds(l) <==> Matches(l, q))
    ensures Used(leases, q).leases == |RowsWhere(leases, holds)|
  {
    hide Matches;
    if leases == [] {
      assert RowsWhere(leases, holds) == {};
    } else {
      var k := |leases| - 1;
      assert leases[k] in leases;
      UsedCounts(leases[..k], q, holds);
      RowsWhereNext(leases, holds);
    }
  }

  // ---- The fence ----

  /** Reading a row whatever its phase: the epoch is checked before anything else about it is believed. */
  function LoadAny(db: Ledger, id: nat, epoch: int): (a: Answer)
    ensures a == OK ==> id < |db.leases|
  {
    if id >= |db.leases| then NotFound
    else if db.leases[id].epoch != epoch then Fenced
    else OK
  }

  /** Reading a row that has not finished. */
  function Load(db: Ledger, id: nat, epoch: int): (a: Answer)
    ensures a == OK ==> id < |db.leases|
  {
    var found := LoadAny(db, id, epoch);
    if found == OK && db.leases[id].phase.Terminal() then NotFound else found
  }

  // ---- A new reservation ----

  /** The row one escrowed slot is written as. */
  function NewLease(t: Tier, host: Host, cost: Cost, expiresAt: int): Lease
  {
    Lease(t.name, host, "", t.guestOS == MacOS, t.guestOS, t.providers, None, Capacity,
          cost.vcpu, cost.memory, t.vcpu, t.memory, cost.instanceType, 0, expiresAt, false, "", 0, 0)
  }

  /** The rows a sequence of placements is written as. */
  function NewLeases(t: Tier, p: Plan, hosts: seq<Host>, expiresAt: int): (rows: seq<Lease>)
    requires forall h :: h in hosts ==> h in p.cost
    ensures |rows| == |hosts|
    ensures forall i :: 0 <= i < |hosts| ==> rows[i] == NewLease(t, hosts[i], p.cost[hosts[i]], expiresAt)
  {
    seq(|hosts|, i requires 0 <= i < |hosts| => NewLease(t, hosts[i], p.cost[hosts[i]], expiresAt))
  }
}

/** The host table's transactions: registering, and the fenced ways of leaving placement. */
module NodeStore {
  import opened Placement
  import opened Catalogue
  import opened LedgerState
  import opened Barriers
  import opened Runs
  import opened Safety
  import opened BarrierRuns

  /** An accepted registration's write: a new row, or the old one rewritten with its epoch moved. */
  method UpsertRegistration(store: Store, r: Registration) returns (epoch: nat)
    modifies store
    ensures store.db == Registered(old(store.db), r)
    ensures NodeNamed(store.db.nodes, r.name).Some? && NodeNamed(store.db.nodes, r.name).value.epoch == epoch
  {
    var i := NodeIndex(store.db.nodes, r.name);
    if i == |store.db.nodes| {
      epoch := 1;
      store.db := store.db.(nodes := store.db.nodes + [RowOf(r, epoch, 0)]);
    } else {
      epoch := store.db.nodes[i].epoch + 1;
      store.db := store.db.(nodes := store.db.nodes[i := RowOf(r, epoch, store.db.nodes[i].dispatch)]);
    }
    NodeIndexIs(store.db.nodes, r.name, i);
  }

  /** Gives up on a host, unless it has registered since. */
  method NodeGone(store: Store, h: Host, epoch: int)
    modifies store
    ensures store.db == Gone(old(store.db), h, epoch)
  {
    var i := NodeIndex(store.db.nodes, h);
    if i < |store.db.nodes| {
      var n := store.db.nodes[i];
      SameRow(store.db, i);
      if n.epoch == epoch {
        store.db := store.db.(nodes := store.db.nodes[i := n.(live := false)]);
      }
    }
  }

  /** Takes a host out of placement on its own word; a stale word matches no row. */
  method NodeWithdrawn(store: Store, h: Host, epoch: int, incarnation: string) returns (ok: bool)
    modifies store
    ensures store.db == Withdrawn(old(store.db), h, epoch, incarnation)
    ensures ok == CurrentProcess(old(store.db), h, epoch, incarnation)
  {
    var i := NodeIndex(store.db.nodes, h);
    if i == |store.db.nodes| {
      return false;
    }
    var n := store.db.nodes[i];
    SameRow(store.db, i);
    ok := n.epoch == epoch && n.incarnation == incarnation;
    if ok {
      store.db := store.db.(nodes := store.db.nodes[i := n.(live := false)]);
    }
  }

  /** Takes a draining host out of placement while it stays live. */
  method NodeDraining(store: Store, h: Host, epoch: int, incarnation: string) returns (ok: bool)
    modifies store
    ensures store.db == Draining(old(store.db), h, epoch, incarnation)
    ensures ok == CurrentProcess(old(store.db), h, epoch, incarnation)
  {
    var i := NodeIndex(store.db.nodes, h);
    if i == |store.db.nodes| {
      return false;
    }
    var n := store.db.nodes[i];
    SameRow(store.db, i);
    ok := n.epoch == epoch && n.incarnation == incarnation;
    if ok {
      store.db := store.db.(nodes := store.db.nodes[i := n.(drained := true)]);
    }
  }

  /** Marks the whole fleet unreachable, and forgets what it last said it ran. */
  method ForgetFleet(store: Store)
    modifies store
    ensures store.db == Forgotten(old(store.db))
  {
    ghost var db := store.db;
    for i := 0 to |store.db.nodes|
      invariant |store.db.nodes| == |db.nodes| && store.db == db.(nodes := store.db.nodes)
      invariant forall j :: 0 <= j < i ==> store.db.nodes[j] == db.nodes[j].(live := false)
      invariant forall j :: i <= j < |db.nodes| ==> store.db.nodes[j] == db.nodes[j]
    {
      store.db := store.db.(nodes := store.db.nodes[i := store.db.nodes[i].(live := false)]);
    }
    store.db := store.db.(inventory := map[]);
    assert store.db.nodes == Forgotten(db).nodes;
  }

  lemma SameRow(db: Ledger, i: nat)
    requires i < |db.nodes|
    ensures db.(nodes := db.nodes[i := db.nodes[i]]) == db
  {
    assert db.nodes[i := db.nodes[i]] == db.nodes;
  }

  /** The process asking is the one the ledger has registered under the name. */
  predicate CurrentProcess(db: Ledger, h: Host, epoch: int, incarnation: string)
  {
    match NodeNamed(db.nodes, h)
    case Some(n) => n.epoch == epoch && n.incarnation == incarnation
    case None => false
  }

  /** Once a host has registered again, nothing said under its earlier registration ever changes the fleet: it is
      neither given up on, withdrawn nor drained, and its inventory is not believed. */
  lemma SupersededProcessChangesNothing(cfg: Config, db: Ledger, run: seq<Tick>, a: nat, b: nat, h: Host, epoch: int,
                                        incarnation: string, running: seq<nat>, completed: set<nat>, now: int)
    requires ValidConfig(cfg) && a <= b <= |run|
    requires HostAt(cfg, db, run, a, h).Some? && epoch < HostAt(cfg, db, run, a, h).value.epoch
    ensures
      var current := StateAt(cfg, db, run, b);
      && Apply(cfg, current, Tick(now, GiveUpOn(h, epoch))) == current
      && Apply(cfg, current, Tick(now, Withdraw(h, epoch, incarnation))) == current
      && Apply(cfg, current, Tick(now, Drain(h, epoch, incarnation))) == current
      && Apply(cfg, current, Tick(now, Report(h, epoch, running, completed))) == current
  {
    hide StateAt, NodeIndex;
    FencesNeverGoBack(cfg, db, run, a, b, h);
    var current := StateAt(cfg, db, run, b);
    SameRow(current, NodeIndex(current.nodes, h));
  }
}

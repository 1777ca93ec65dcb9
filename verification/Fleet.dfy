/** What every machine has left, and what placements take from it. */
module Fleet {
  import opened Placement
  import opened Catalogue
  import opened LedgerState

  /** Each placeable host's size less what is charged to it. */
  function FreeRows(cfg: Config, rows: seq<Node>, leases: seq<Lease>): Free
  {
    if rows == [] then Free(map[], map[], map[])
    else
      var f := FreeRows(cfg, rows[..|rows| - 1], leases);
      var n := rows[|rows| - 1];
      var u := Used(leases, OnHost(n.name));
      Free(f.vcpu[n.name := n.vcpu - u.vcpu],
           f.memory[n.name := n.memory - u.memory],
           f.macOS[n.name := MacOSLimit(cfg, n.name) - u.macOS])
  }

  lemma {:induction false} FreeAt(cfg: Config, rows: seq<Node>, leases: seq<Lease>, n: Node)
    requires Distinct(NamesOf(rows)) && n in rows
    ensures
      var f, u := FreeRows(cfg, rows, leases), Used(leases, OnHost(n.name));
      && At(f.vcpu, n.name) == n.vcpu - u.vcpu
      && At(f.memory, n.name) == n.memory - u.memory
      && At(f.macOS, n.name) == MacOSLimit(cfg, n.name) - u.macOS
  {
    hide Used;
    var front, last := rows[..|rows| - 1], rows[|rows| - 1];
    assert rows == front + [last];
    assert NamesOf(front) == NamesOf(rows)[..|rows| - 1];
    if n != last {
      assert n in front;
      var j :| 0 <= j < |front| && front[j] == n;
      assert NamesOf(rows)[j] != NamesOf(rows)[|rows| - 1];
      FreeAt(cfg, front, leases, n);
    }
  }

  /** A host that is not placeable has an entry nowhere. */
  lemma {:induction false} FreeElsewhere(cfg: Config, rows: seq<Node>, leases: seq<Lease>, h: Host)
    requires forall n :: n in rows ==> n.name != h
    ensures
      var f := FreeRows(cfg, rows, leases);
      h !in f.vcpu && h !in f.memory && h !in f.macOS
  {
    if rows != [] {
      assert rows[|rows| - 1] in rows;
      FreeElsewhere(cfg, rows[..|rows| - 1], leases, h);
    }
  }

  /** What one host gained or lost between two rooms is what some rows charge it. */
  ghost predicate TakenAt(before: Free, after: Free, rows: seq<Lease>, h: Host)
  {
    var u := Used(rows, OnHost(h));
    && At(after.vcpu, h) == At(before.vcpu, h) - u.vcpu
    && At(after.memory, h) == At(before.memory, h) - u.memory
    && At(after.macOS, h) == At(before.macOS, h) - u.macOS
  }

  predicate SolventAt(f: Free, h: Host, macOS: bool)
  {
    At(f.vcpu, h) >= 0 && At(f.memory, h) >= 0 && (macOS ==> At(f.macOS, h) >= 0)
  }

  lemma TakenNothing(f: Free, h: Host)
    ensures TakenAt(f, f, [], h)
  {
  }

  lemma TakenThen(a: Free, b: Free, c: Free, first: seq<Lease>, second: seq<Lease>, h: Host)
    requires TakenAt(a, b, first, h) && TakenAt(b, c, second, h)
    ensures TakenAt(a, c, first + second, h)
  {
    UsedConcat(first, second, OnHost(h));
  }

  lemma SpendAccounts(t: Tier, p: Plan, r: Room, g: Host, expiresAt: int, h: Host)
    requires PositiveCosts(p) && (p.macOS <==> t.guestOS == MacOS)
    requires g in p.cost && RoomFor(p, r, g) > 0 && g != ""
    ensures TakenAt(r.free, Spend(p, r, g).free, [NewLease(t, g, p.cost[g], expiresAt)], h)
    ensures SolventAt(Spend(p, r, g).free, g, p.macOS)
  {
    hide RoomFor, Spend, TakenAt, SolventAt;
    SpendSolvent(p, r, g);
    SpendTaken(t, p, r, g, expiresAt, h);
  }

  lemma SpendTaken(t: Tier, p: Plan, r: Room, g: Host, expiresAt: int, h: Host)
    requires (p.macOS <==> t.guestOS == MacOS) && g in p.cost && g != ""
    ensures TakenAt(r.free, Spend(p, r, g).free, [NewLease(t, g, p.cost[g], expiresAt)], h)
  {
    hide Used;
    var row := NewLease(t, g, p.cost[g], expiresAt);
    UsedOne(row, OnHost(h));
  }

  lemma SpendSolvent(p: Plan, r: Room, g: Host)
    requires PositiveCosts(p) && g in p.cost && RoomFor(p, r, g) > 0
    ensures SolventAt(Spend(p, r, g).free, g, p.macOS)
    ensures Spend(p, r, g).vcpu == r.vcpu - p.cost[g].vcpu >= 0
    ensures Spend(p, r, g).memory == r.memory - p.cost[g].memory >= 0
  {
    hide RoomFor;
    RoomForMeansFits(p, r, g);
  }

  lemma NewLeasesCons(t: Tier, p: Plan, g: Host, rest: seq<Host>, expiresAt: int)
    requires g in p.cost && forall h :: h in rest ==> h in p.cost
    ensures (forall h :: h in [g] + rest ==> h in p.cost) &&
      NewLeases(t, p, [g] + rest, expiresAt) == [NewLease(t, g, p.cost[g], expiresAt)] + NewLeases(t, p, rest, expiresAt)
  {
  }

  /** Every host's room moves by exactly what the drawn leases charge it, and a host drawn is
      never left below zero. */
  lemma {:induction false} DrawAccounts(t: Tier, p: Plan, s: seq<Host>, r: Room, n: nat, expiresAt: int, h: Host)
    requires PositiveCosts(p) && (p.macOS <==> t.guestOS == MacOS) && "" !in s
    ensures
      var d := Draw(p, s, r, n);
      && TakenAt(r.free, d.room.free, NewLeases(t, p, d.hosts, expiresAt), h)
      && (h in d.hosts ==> SolventAt(d.room.free, h, p.macOS))
    decreases n
  {
    hide RoomFor, Better, Spend, SolventAt, TakenAt, NewLeases;
    var d := Draw(p, s, r, n);
    if n == 0 || Best(p, r, s).None? {
      TakenNothing(r.free, h);
      assert NewLeases(t, p, [], expiresAt) == [];
    } else {
      var g := Best(p, r, s).value;
      var after := Spend(p, r, g);
      var rest := Draw(p, s, after, n - 1);
      var row, rows := NewLease(t, g, p.cost[g], expiresAt), NewLeases(t, p, rest.hosts, expiresAt);
      DrawAccounts(t, p, s, after, n - 1, expiresAt, h);
      SpendAccounts(t, p, r, g, expiresAt, h);
      NewLeasesCons(t, p, g, rest.hosts, expiresAt);
      TakenThen(r.free, after.free, rest.room.free, [row], rows, h);
      if h == g && h !in rest.hosts {
        UntakenStays(t, p, rest.hosts, after.free, rest.room.free, expiresAt, h);
      }
    }
  }

  lemma UntakenStays(t: Tier, p: Plan, hosts: seq<Host>, before: Free, after: Free, expiresAt: int, h: Host)
    requires (forall g :: g in hosts ==> g in p.cost) && h !in hosts
    requires TakenAt(before, after, NewLeases(t, p, hosts, expiresAt), h)
    ensures SolventAt(before, h, p.macOS) ==> SolventAt(after, h, p.macOS)
  {
    UsedNone(NewLeases(t, p, hosts, expiresAt), OnHost(h));
  }

  /** The deployment's room moves by what the drawn leases charge it, and is never drawn below zero. */
  lemma {:induction false} DrawDeployment(t: Tier, p: Plan, s: seq<Host>, r: Room, n: nat, expiresAt: int)
    requires PositiveCosts(p) && (p.macOS <==> t.guestOS == MacOS) && "" !in s
    ensures
      var d := Draw(p, s, r, n);
      var u := Used(NewLeases(t, p, d.hosts, expiresAt), Everywhere);
      && d.room.vcpu == r.vcpu - u.vcpu && d.room.memory == r.memory - u.memory && u.leases == |d.hosts|
      && (d.hosts != [] ==> d.room.vcpu >= 0 && d.room.memory >= 0)
    decreases n
  {
    hide RoomFor, Better, NewLeases, Spend, Used;
    if n == 0 || Best(p, r, s).None? {
      assert NewLeases(t, p, [], expiresAt) == [];
      UsedNone([], Everywhere);
    } else {
      var g := Best(p, r, s).value;
      var after := Spend(p, r, g);
      var rest := Draw(p, s, after, n - 1);
      DrawDeployment(t, p, s, after, n - 1, expiresAt);
      SpendSolvent(p, r, g);
      NewLeasesCons(t, p, g, rest.hosts, expiresAt);
      var row := NewLease(t, g, p.cost[g], expiresAt);
      UsedConcat([row], NewLeases(t, p, rest.hosts, expiresAt), Everywhere);
      UsedOne(row, Everywhere);
    }
  }
}

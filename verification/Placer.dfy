/** The placer as it runs: shared maps of free room, spent in place. */
module PlacerImpl {
  import opened Placement
  import opened Counting
  import Sorting

  /** The fleet's free room. Every placer made from one fleet shares it, so what one
      tier's floor takes is gone from the machines every other tier is offered. */
  class FreeRoom {
    var vcpu: map<Host, int>
    var memory: map<Host, int>
    var macOS: map<Host, int>

    constructor (free: Free)
      ensures Value() == free
    {
      vcpu, memory, macOS := free.vcpu, free.memory, free.macOS;
    }

    function Value(): Free
      reads this
    {
      Free(vcpu, memory, macOS)
    }
  }

  class Placer {
    var order: seq<Host>
    var cost: map<Host, Cost>
    const rank: map<Host, int>
    const policy: Policy
    const sizes: map<Host, Size>
    const macOS: bool
    const free: FreeRoom
    var deploymentVCPU: int
    var deploymentMemory: int

    function Plan(): Plan
      reads this
    {
      Placement.Plan(cost, rank, policy, sizes, macOS)
    }

    function Room(): Room
      reads this, free
    {
      Placement.Room(free.Value(), deploymentVCPU, deploymentMemory)
    }

    ghost predicate Valid()
      reads this
    {
      PositiveCosts(Plan()) && Distinct(order) && "" !in order
    }

    constructor (order: seq<Host>, plan: Plan, free: FreeRoom, deploymentVCPU: int, deploymentMemory: int)
      requires PositiveCosts(plan) && Distinct(order) && "" !in order
      ensures Valid() && this.order == order && Plan() == plan && this.free == free
      ensures Room() == Placement.Room(free.Value(), deploymentVCPU, deploymentMemory)
    {
      this.order := order;
      this.cost, this.rank, this.policy := plan.cost, plan.rank, plan.policy;
      this.sizes, this.macOS, this.free := plan.sizes, plan.macOS, free;
      this.deploymentVCPU, this.deploymentMemory := deploymentVCPU, deploymentMemory;
    }

    /** A placer of its own room. */
    method Clone() returns (clone: Placer)
      requires Valid()
      ensures fresh(clone) && fresh(clone.free) && clone.Valid()
      ensures clone.order == order && clone.Plan() == Plan() && clone.Room() == Room()
    {
      var room := new FreeRoom(free.Value());
      clone := new Placer(order, Plan(), room, deploymentVCPU, deploymentMemory);
    }

    /** Takes one lease off a host. */
    method Spend(h: Host)
      requires h in cost
      modifies this`deploymentVCPU, this`deploymentMemory, free
      ensures Room() == Placement.Spend(Plan(), old(Room()), h)
    {
      var c := cost[h];
      free.vcpu := free.vcpu[h := At(free.vcpu, h) - c.vcpu];
      free.memory := free.memory[h := At(free.memory, h) - c.memory];
      deploymentVCPU := deploymentVCPU - c.vcpu;
      deploymentMemory := deploymentMemory - c.memory;
      if macOS {
        free.macOS := free.macOS[h := At(free.macOS, h) - 1];
      }
    }

    /** Picks the machine a reservation should be aimed at, and spends it. */
    method Next() returns (host: Host, charge: Cost, ok: bool)
      requires Valid()
      modifies this`deploymentVCPU, this`deploymentMemory, free
      ensures Valid()
      ensures ok <==> Best(Plan(), old(Room()), order).Some?
      ensures ok ==> Best(Plan(), old(Room()), order) == Some(host) && charge == cost[host]
      ensures ok ==> Room() == Placement.Spend(Plan(), old(Room()), host)
      ensures !ok ==> Room() == old(Room())
      ensures ok ==> host in order && host in cost && Placement.RoomFor(Plan(), old(Room()), host) > 0
      ensures ok ==> forall g :: g in order && g != host && Placement.RoomFor(Plan(), old(Room()), g) > 0 ==>
        g in cost && ComesFirst(Plan(), old(Room()), host, g)
      ensures !ok ==> forall g :: g in order ==> Placement.RoomFor(Plan(), old(Room()), g) == 0
    {
      hide Placement.RoomFor, Better, ComesFirst;
      var best, bestRoom := "", 0;
      for i := 0 to |order|
        invariant Room() == old(Room())
        invariant best == "" <==> Best(Plan(), Room(), order[..i]).None?
        invariant best != "" ==>
          Best(Plan(), Room(), order[..i]) == Some(best) && bestRoom == Placement.RoomFor(Plan(), Room(), best)
      {
        var h := order[i];
        assert order[..i + 1][..i] == order[..i];
        var room := Placement.RoomFor(Plan(), Room(), h);
        if room > 0 && (best == "" || Better(Plan(), Room(), h, room, best, bestRoom)) {
          best, bestRoom := h, room;
        }
      }
      assert order[..|order|] == order;
      if best == "" {
        return "", Cost(0, 0, ""), false;
      }
      charge := cost[best];
      forall g | g in order && g != best && Placement.RoomFor(Plan(), Room(), g) > 0
        ensures g in cost && ComesFirst(Plan(), Room(), best, g)
      {
        BestIsPreferred(Plan(), Room(), order, g);
      }
      Spend(best);
      return best, charge, true;
    }

    /** The cost every host of a group charges, if they all charge one and it can be divided by. */
    method OneCost(group: seq<Host>) returns (charge: Cost, ok: bool)
      requires Valid() && group != [] && forall h :: h in group ==> h in cost
      ensures ok ==> Positive(charge) && Uniform(Plan(), group, charge)
      ensures !ok ==> exists h :: h in group && !Charges(Plan(), h, cost[group[0]])
    {
      charge := cost[group[0]];
      for i := 1 to |group|
        invariant forall j :: 0 <= j < i ==> Charges(Plan(), group[j], charge)
      {
        var c := cost[group[i]];
        if c.vcpu != charge.vcpu || c.memory != charge.memory {
          assert group[i] in group && !Charges(Plan(), group[i], cost[group[0]]);
          return charge, false;
        }
      }
      ok := charge.vcpu > 0 && charge.memory > 0;
    }

    /** How many leases a uniform group holds, never adding past what the deployment can take. */
    method UniformCount(group: seq<Host>, charge: Cost, deploymentVCPU: int, deploymentMemory: int)
      returns (hosts: int)
      requires Positive(charge)
      ensures hosts == Min(HostRooms(Plan(), free.Value(), group, charge),
                           DeploymentRoom(Placement.Room(free.Value(), deploymentVCPU, deploymentMemory), charge))
    {
      hide Quot;
      var deployment := Max(Min(Quot(deploymentVCPU, charge.vcpu), Quot(deploymentMemory, charge.memory)), 0);
      hosts := 0;
      for i := 0 to |group|
        invariant hosts == Min(HostRooms(Plan(), free.Value(), group[..i], charge), deployment)
      {
        var h := group[i];
        assert group[..i + 1][..i] == group[..i];
        var room := Min(Quot(At(free.vcpu, h), charge.vcpu), Quot(At(free.memory, h), charge.memory));
        if macOS {
          room := Min(room, At(free.macOS, h));
        }
        hosts := hosts + Min(Max(room, 0), deployment - hosts);
      }
      assert group[..|group|] == group;
    }

    method CandidateRanks() returns (ranks: seq<int>)
      ensures Sorting.Ascending(ranks, (x: int) => x) && Distinct(ranks)
      ensures forall h :: h in order && h in cost ==> At(rank, h) in ranks
      ensures forall k :: k in ranks ==> Group(Plan(), order, k) != []
    {
      var found: seq<int> := [];
      for i := 0 to |order|
        invariant Distinct(found)
        invariant forall k :: k in found <==> exists j :: 0 <= j < i && order[j] in cost && At(rank, order[j]) == k
      {
        if order[i] in cost && At(rank, order[i]) !in found {
          found := found + [At(rank, order[i])];
        }
      }
      var key := (x: int) => x;
      ranks := Sorting.StableSort(found, key);
      Sorting.SortAscends(found, key);
      Sorting.SortKeepsMembers(found, key);
      DistinctSorted(found, ranks);
      forall k | k in ranks ensures Group(Plan(), order, k) != [] {
        var j :| 0 <= j < |order| && order[j] in cost && At(rank, order[j]) == k;
        assert order[j] in Group(Plan(), order, k);
      }
    }

    static lemma DistinctSorted(s: seq<int>, t: seq<int>)
      requires Distinct(s) && multiset(s) == multiset(t)
      ensures Distinct(t)
    {
      forall i, j | 0 <= i < j < |t| ensures t[i] != t[j] {
        if t[i] == t[j] {
          assert t == t[..i] + [t[i]] + t[i + 1..j] + [t[j]] + t[j + 1..];
          assert multiset(t)[t[i]] >= 2;
          DistinctCountsOnce(s, t[i]);
        }
      }
    }

    static lemma {:induction false} DistinctCountsOnce(s: seq<int>, x: int)
      requires Distinct(s)
      ensures multiset(s)[x] <= 1
    {
      if s != [] {
        assert s == s[..|s| - 1] + [s[|s| - 1]];
        DistinctCountsOnce(s[..|s| - 1], x);
        assert s[|s| - 1] !in s[..|s| - 1];
      }
    }

    method CandidatesOf(wanted: int) returns (group: seq<Host>)
      ensures group == Group(Plan(), order, wanted)
    {
      group := [];
      for i := 0 to |order|
        invariant group == Group(Plan(), order[..i], wanted)
      {
        assert order[..i + 1][..i] == order[..i];
        if order[i] in cost && At(rank, order[i]) == wanted {
          group := group + [order[i]];
        }
      }
      assert order[..|order|] == order;
    }

    /** Places one job at a time until nothing fits. */
    method PlaceAll() returns (n: nat)
      requires Valid()
      modifies this`deploymentVCPU, this`deploymentMemory, free
      ensures n == |Fill(Plan(), order, old(Room())).hosts|
      ensures Room() == Fill(Plan(), order, old(Room())).room
    {
      hide Placement.RoomFor, Better, Placement.Spend;
      n := 0;
      while true
        invariant Valid()
        invariant n + |Fill(Plan(), order, Room()).hosts| == |Fill(Plan(), order, old(Room())).hosts|
        invariant Fill(Plan(), order, Room()).room == Fill(Plan(), order, old(Room())).room
        decreases Max(deploymentVCPU, 0)
      {
        ghost var before := Room();
        var host, _, ok := Next();
        if !ok {
          break;
        }
        SpendDecreases(Plan(), before, host);
        n := n + 1;
      }
    }

    /** One rank's count, and the deployment room left after it. */
    method CountRank(group: seq<Host>, deploymentVCPU: int, deploymentMemory: int, ghost before: Room)
      returns (n: nat, vcpuLeft: int, memoryLeft: int)
      requires Valid() && Distinct(group) && group != [] && forall h :: h in group ==> h in order && h in cost
      requires Agree(group, Placement.Room(free.Value(), deploymentVCPU, deploymentMemory), before)
      ensures n == |Fill(Plan(), group, before).hosts|
      ensures vcpuLeft == Fill(Plan(), group, before).room.vcpu
      ensures memoryLeft == Fill(Plan(), group, before).room.memory
    {
      hide Placement.RoomFor, Fill, HostRoom, DeploymentRoom;
      var charge, ok := OneCost(group);
      ghost var given := Placement.Room(free.Value(), deploymentVCPU, deploymentMemory);
      FillReadsOnly(Plan(), group, given, before);
      if ok {
        var hosts := UniformCount(group, charge, deploymentVCPU, deploymentMemory);
        FillUniform(Plan(), group, given, charge);
        n := hosts;
        return n, deploymentVCPU - n * charge.vcpu, deploymentMemory - n * charge.memory;
      }
      var placed := Clone();
      placed.order := group;
      placed.deploymentVCPU, placed.deploymentMemory := deploymentVCPU, deploymentMemory;
      n := placed.PlaceAll();
      return n, placed.deploymentVCPU, placed.deploymentMemory;
    }

    /** How many leases the candidates hold between them, counted one preference rank at a
        time: exactly what placing one job at a time until nothing fits would place. */
    method CountByRank() returns (sum: nat)
      requires Valid()
      ensures sum == |Fill(Plan(), order, Room()).hosts|
    {
      hide Placement.RoomFor, Fill, Group;
      var ranks := CandidateRanks();
      var vcpuLeft, memoryLeft := deploymentVCPU, deploymentMemory;
      sum := 0;
      ghost var left := Room();
      for k := 0 to |ranks|
        invariant left.vcpu == vcpuLeft && left.memory == memoryLeft
        invariant sum + |Fill(Plan(), order, left).hosts| == |Fill(Plan(), order, Room()).hosts|
        invariant Untouched(ranks[k..], left)
        invariant Exhausted(ranks[..k], left)
      {
        var group := CandidatesOf(ranks[k]);
        GroupDistinct(Plan(), order, ranks[k]);
        RankStep(ranks, k, left);
        assert ranks[k] in ranks;
        var n;
        n, vcpuLeft, memoryLeft := CountRank(group, vcpuLeft, memoryLeft, left);
        sum := sum + n;
        left := Fill(Plan(), group, left).room;
      }
      NothingLeft(ranks, left);
    }

    /** The hosts of these ranks still have the room they started with. */
    ghost predicate Untouched(ranks: seq<int>, left: Room)
      reads this, free
    {
      forall h :: h in order && h in cost && At(rank, h) in ranks ==> SameOn(free.Value(), left.free, h)
    }

    /** The hosts of these ranks have no room. */
    ghost predicate Exhausted(ranks: seq<int>, left: Room)
      requires Valid()
      reads this
    {
      forall h :: h in order && h in cost && At(rank, h) in ranks ==> Placement.RoomFor(Plan(), left, h) == 0
    }

    lemma RankStep(ranks: seq<int>, k: nat, before: Room)
      requires Valid() && k < |ranks|
      requires Sorting.Ascending(ranks, (x: int) => x) && Distinct(ranks)
      requires forall h :: h in order && h in cost ==> At(rank, h) in ranks
      requires Untouched(ranks[k..], before) && Exhausted(ranks[..k], before)
      ensures
        var group := Group(Plan(), order, ranks[k]);
        var after := Fill(Plan(), group, before);
        && |Fill(Plan(), order, before).hosts| == |after.hosts| + |Fill(Plan(), order, after.room).hosts|
        && Untouched(ranks[k + 1..], after.room) && Exhausted(ranks[..k + 1], after.room)
        && forall h :: h in group ==> SameOn(free.Value(), before.free, h)
    {
      hide Placement.RoomFor, Better, Placement.Spend, Fill;
      var p, group := Plan(), Group(Plan(), order, ranks[k]);
      var after := Fill(p, group, before).room;
      assert ranks[k] in ranks[k..];
      forall h | h in order && h in cost && At(rank, h) < ranks[k] ensures Placement.RoomFor(p, before, h) == 0 {
        var i :| 0 <= i < |ranks| && ranks[i] == At(rank, h);
        assert i < k;
        assert ranks[..k][i] == At(rank, h);
      }
      FillRank(p, order, before, ranks[k]);
      forall h | h in order && h in cost && At(rank, h) in ranks[k + 1..]
        ensures SameOn(free.Value(), after.free, h)
      {
        assert At(rank, h) in ranks[k..];
        FillLeavesOthers(p, group, before, h);
      }
      forall h | h in order && h in cost && At(rank, h) in ranks[..k + 1]
        ensures Placement.RoomFor(p, after, h) == 0
      {
        if At(rank, h) == ranks[k] {
          FillExhausts(p, group, before, h);
        } else {
          assert At(rank, h) in ranks[..k];
          FillShrinks(p, group, before, h);
        }
      }
    }

    lemma NothingLeft(ranks: seq<int>, left: Room)
      requires Valid() && forall h :: h in order && h in cost ==> At(rank, h) in ranks
      requires Exhausted(ranks[..|ranks|], left)
      ensures Fill(Plan(), order, left).hosts == []
    {
      assert ranks[..|ranks|] == ranks;
      assert forall h :: h in order ==> Placement.RoomFor(Plan(), left, h) == 0;
    }
  }
}

/**
 Why slots may be counted one preference rank at a time instead of placed one
 at a time: the lemmas behind `Placer.CountByRank`.
 */
module Counting {
  import opened Placement

  // ---- Spending never gives room back ----

  lemma SpendDecreases(p: Plan, r: Room, h: Host)
    requires PositiveCosts(p) && RoomFor(p, r, h) > 0
    ensures h in p.cost && Max(Spend(p, r, h).vcpu, 0) < Max(r.vcpu, 0)
    ensures Spend(p, r, h).vcpu == r.vcpu - p.cost[h].vcpu && Spend(p, r, h).memory == r.memory - p.cost[h].memory
  {
    RoomForMeansFits(p, r, h);
  }

  lemma SpendShrinks(p: Plan, r: Room, h: Host, g: Host)
    requires PositiveCosts(p) && h in p.cost && RoomFor(p, r, g) == 0
    ensures RoomFor(p, Spend(p, r, h), g) == 0
  {
    RoomForMeansFits(p, r, g);
    RoomForMeansFits(p, Spend(p, r, h), g);
  }

  lemma {:induction false} FillShrinks(p: Plan, s: seq<Host>, r: Room, g: Host)
    requires PositiveCosts(p) && RoomFor(p, r, g) == 0
    ensures RoomFor(p, Fill(p, s, r).room, g) == 0
    decreases Max(r.vcpu, 0)
  {
    var b := Best(p, r, s);
    if b.Some? {
      RoomForMeansFits(p, r, b.value);
      SpendShrinks(p, r, b.value, g);
      FillShrinks(p, s, Spend(p, r, b.value), g);
    }
  }

  /** Filling ends with no room on any host it was given. */
  lemma {:induction false} FillExhausts(p: Plan, s: seq<Host>, r: Room, g: Host)
    requires PositiveCosts(p) && g in s
    ensures RoomFor(p, Fill(p, s, r).room, g) == 0
    decreases Max(r.vcpu, 0)
  {
    var b := Best(p, r, s);
    if b.Some? {
      RoomForMeansFits(p, r, b.value);
      FillExhausts(p, s, Spend(p, r, b.value), g);
    }
  }

  predicate SameOn(a: Free, b: Free, h: Host)
  {
    At(a.vcpu, h) == At(b.vcpu, h) && At(a.memory, h) == At(b.memory, h) && At(a.macOS, h) == At(b.macOS, h)
  }

  /** Filling some hosts leaves the room of every other host alone. */
  lemma {:induction false} FillLeavesOthers(p: Plan, s: seq<Host>, r: Room, g: Host)
    requires PositiveCosts(p) && g !in s
    ensures SameOn(Fill(p, s, r).room.free, r.free, g)
    decreases Max(r.vcpu, 0)
  {
    var b := Best(p, r, s);
    if b.Some? {
      RoomForMeansFits(p, r, b.value);
      FillLeavesOthers(p, s, Spend(p, r, b.value), g);
    }
  }

  // ---- Filling some hosts reads only their room ----

  ghost predicate Agree(s: seq<Host>, a: Room, b: Room)
  {
    a.vcpu == b.vcpu && a.memory == b.memory && forall h :: h in s ==> SameOn(a.free, b.free, h)
  }

  lemma RoomForReadsOnly(p: Plan, a: Room, b: Room, h: Host)
    requires PositiveCosts(p) && Agree([h], a, b)
    ensures RoomFor(p, a, h) == RoomFor(p, b, h)
  {
    assert SameOn(a.free, b.free, [h][0]);
  }

  lemma BetterReadsOnly(p: Plan, a: Room, b: Room, g: Host, roomG: int, h: Host, roomH: int)
    requires Agree([g, h], a, b)
    ensures Better(p, a, g, roomG, h, roomH) == Better(p, b, g, roomG, h, roomH)
  {
    assert SameOn(a.free, b.free, [g, h][0]) && SameOn(a.free, b.free, [g, h][1]);
  }

  lemma {:induction false} BestReadsOnly(p: Plan, s: seq<Host>, a: Room, b: Room, t: seq<Host>)
    requires PositiveCosts(p) && Agree(s, a, b) && forall h :: h in t ==> h in s
    ensures Best(p, a, t) == Best(p, b, t)
  {
    hide RoomFor, Better;
    if t != [] {
      var front, last := t[..|t| - 1], t[|t| - 1];
      assert last in t && forall h :: h in front ==> h in t;
      BestReadsOnly(p, s, a, b, front);
      RoomForReadsOnly(p, a, b, last);
      if Best(p, a, front).Some? {
        var prev := Best(p, a, front).value;
        RoomForReadsOnly(p, a, b, prev);
        BetterReadsOnly(p, a, b, last, RoomFor(p, a, last), prev, RoomFor(p, a, prev));
      }
    }
  }

  lemma {:induction false} FillReadsOnly(p: Plan, s: seq<Host>, a: Room, b: Room)
    requires PositiveCosts(p) && Agree(s, a, b)
    ensures Fill(p, s, a).hosts == Fill(p, s, b).hosts
    ensures Agree(s, Fill(p, s, a).room, Fill(p, s, b).room)
    decreases Max(a.vcpu, 0)
  {
    BestReadsOnly(p, s, a, b, s);
    var best := Best(p, a, s);
    if best.Some? {
      RoomForMeansFits(p, a, best.value);
      RoomForMeansFits(p, b, best.value);
      FillReadsOnly(p, s, Spend(p, a, best.value), Spend(p, b, best.value));
    }
  }

  // ---- One rank is filled before the next is touched, and none is come back to ----

  function Group(p: Plan, s: seq<Host>, rank: int): (g: seq<Host>)
    ensures forall h :: h in g <==> h in s && h in p.cost && At(p.rank, h) == rank
  {
    if s == [] then []
    else
      var last := s[|s| - 1];
      assert s == s[..|s| - 1] + [last];
      Group(p, s[..|s| - 1], rank) + if last in p.cost && At(p.rank, last) == rank then [last] else []
  }

  lemma {:induction false} GroupDistinct(p: Plan, s: seq<Host>, rank: int)
    requires Distinct(s)
    ensures Distinct(Group(p, s, rank))
  {
    if s != [] {
      var front, last := s[..|s| - 1], s[|s| - 1];
      assert s == front + [last];
      assert last !in front;
      GroupDistinct(p, front, rank);
    }
  }

  /** No host preferred to `rank` has room. */
  ghost predicate FullBelow(p: Plan, s: seq<Host>, r: Room, rank: int)
    requires PositiveCosts(p)
  {
    forall h :: h in s && h in p.cost && At(p.rank, h) < rank ==> RoomFor(p, r, h) == 0
  }

  lemma FullBelowParts(p: Plan, front: seq<Host>, last: Host, r: Room, rank: int)
    requires PositiveCosts(p) && FullBelow(p, front + [last], r, rank)
    ensures FullBelow(p, front, r, rank)
    ensures last in p.cost && At(p.rank, last) < rank ==> RoomFor(p, r, last) == 0
  {
    assert last in front + [last] && forall h :: h in front ==> h in front + [last];
  }

  lemma RankDecides(p: Plan, r: Room, a: Host, roomA: int, b: Host, roomB: int)
    requires At(p.rank, a) != At(p.rank, b)
    ensures Better(p, r, a, roomA, b, roomB) <==> At(p.rank, a) < At(p.rank, b)
  {
  }

  lemma {:induction false} BestInRank(p: Plan, s: seq<Host>, r: Room, rank: int)
    requires PositiveCosts(p) && FullBelow(p, s, r, rank)
    ensures Best(p, r, Group(p, s, rank)).Some? ==> Best(p, r, s) == Best(p, r, Group(p, s, rank))
    ensures Best(p, r, Group(p, s, rank)).None? ==>
      Best(p, r, s).None? || At(p.rank, Best(p, r, s).value) > rank
  {
    hide RoomFor, Better, LeftOver, FullBelow;
    if s != [] {
      var front, last := s[..|s| - 1], s[|s| - 1];
      assert s == front + [last];
      assert FullBelow(p, front, r, rank) && (last in p.cost && At(p.rank, last) < rank ==> RoomFor(p, r, last) == 0) by {
        FullBelowParts(p, front, last, r, rank);
      }
      BestInRank(p, front, r, rank);
      var g := Group(p, front, rank);
      assert last in s;
      var prev := Best(p, r, front);
      if prev.Some? && At(p.rank, last) != At(p.rank, prev.value) {
        RankDecides(p, r, last, RoomFor(p, r, last), prev.value, RoomFor(p, r, prev.value));
      }
      if last in p.cost && At(p.rank, last) == rank {
        assert (g + [last])[..|g|] == g;
      } else {
        assert g + [] == g;
      }
    }
  }

  lemma FullBelowAfter(p: Plan, s: seq<Host>, r: Room, rank: int, b: Host)
    requires PositiveCosts(p) && FullBelow(p, s, r, rank) && b in p.cost
    ensures FullBelow(p, s, Spend(p, r, b), rank)
  {
    hide RoomFor, Spend;
    forall h | h in s && h in p.cost && At(p.rank, h) < rank ensures RoomFor(p, Spend(p, r, b), h) == 0 {
      SpendShrinks(p, r, b, h);
    }
  }

  /** Filling everything is filling the first rank with room, and then everything again. */
  lemma {:induction false} FillRank(p: Plan, s: seq<Host>, r: Room, rank: int)
    requires PositiveCosts(p) && FullBelow(p, s, r, rank)
    ensures
      var one := Fill(p, Group(p, s, rank), r);
      Fill(p, s, r).hosts == one.hosts + Fill(p, s, one.room).hosts
    decreases Max(r.vcpu, 0)
  {
    hide RoomFor, Better, Spend, Group, Best, FullBelow;
    var g := Group(p, s, rank);
    BestInRank(p, s, r, rank);
    var b := Best(p, r, g);
    if b.Some? {
      SpendDecreases(p, r, b.value);
      var after := Spend(p, r, b.value);
      FullBelowAfter(p, s, r, rank, b.value);
      FillRank(p, s, after, rank);
      var one := Fill(p, g, after);
      calc {
        Fill(p, s, r).hosts;
        [b.value] + Fill(p, s, after).hosts;
        [b.value] + (one.hosts + Fill(p, s, one.room).hosts);
        ([b.value] + one.hosts) + Fill(p, s, one.room).hosts;
        Fill(p, g, r).hosts + Fill(p, s, one.room).hosts;
      }
    }
  }

  // ---- A rank whose hosts all charge the same is a division ----

  predicate Uniform(p: Plan, s: seq<Host>, c: Cost)
  {
    forall h :: h in s ==> Charges(p, h, c)
  }

  /** What the hosts hold between them, deployment aside. */
  function HostRooms(p: Plan, f: Free, s: seq<Host>, c: Cost): (n: int)
    requires Positive(c)
    ensures n >= 0
  {
    if s == [] then 0 else HostRooms(p, f, s[..|s| - 1], c) + HostRoom(p, f, s[|s| - 1], c)
  }

  predicate Charges(p: Plan, h: Host, c: Cost)
  {
    h in p.cost && p.cost[h].vcpu == c.vcpu && p.cost[h].memory == c.memory
  }

  lemma RoomForIsTheLesser(p: Plan, r: Room, h: Host, c: Cost)
    requires PositiveCosts(p) && Charges(p, h, c) && Positive(c)
    ensures RoomFor(p, r, h) == Min(HostRoom(p, r.free, h, c), DeploymentRoom(r, c))
  {
    hide Quot;
  }

  lemma {:induction false} HostRoomsZero(p: Plan, f: Free, s: seq<Host>, c: Cost)
    requires Positive(c) && forall h :: h in s ==> HostRoom(p, f, h, c) == 0
    ensures HostRooms(p, f, s, c) == 0
  {
    if s != [] {
      assert s[|s| - 1] in s;
      HostRoomsZero(p, f, s[..|s| - 1], c);
    }
  }

  lemma {:induction false} HostRoomsSame(p: Plan, a: Free, b: Free, s: seq<Host>, c: Cost)
    requires Positive(c) && forall h :: h in s ==> SameOn(a, b, h)
    ensures HostRooms(p, a, s, c) == HostRooms(p, b, s, c)
  {
    if s != [] {
      assert SameOn(a, b, s[|s| - 1]);
      HostRoomsSame(p, a, b, s[..|s| - 1], c);
    }
  }

  lemma SpendTakesOne(p: Plan, r: Room, h: Host, c: Cost)
    requires PositiveCosts(p) && RoomFor(p, r, h) > 0 && Charges(p, h, c) && Positive(c)
    ensures HostRoom(p, Spend(p, r, h).free, h, c) == HostRoom(p, r.free, h, c) - 1
    ensures DeploymentRoom(Spend(p, r, h), c) == DeploymentRoom(r, c) - 1
  {
    RoomForMeansFits(p, r, h);
  }

  lemma {:induction false} SpendTakesOneOfMany(p: Plan, r: Room, s: seq<Host>, c: Cost, h: Host)
    requires PositiveCosts(p) && Positive(c) && Uniform(p, s, c) && Distinct(s)
    requires h in s && RoomFor(p, r, h) > 0
    ensures HostRooms(p, Spend(p, r, h).free, s, c) == HostRooms(p, r.free, s, c) - 1
  {
    hide RoomFor, HostRoom;
    var front, last := s[..|s| - 1], s[|s| - 1];
    assert s == front + [last];
    var after := Spend(p, r, h);
    if last == h {
      assert forall g :: g in front ==> g != h;
      HostRoomsSame(p, after.free, r.free, front, c);
      SpendTakesOne(p, r, h, c);
    } else {
      assert h in front;
      SpendTakesOneOfMany(p, r, front, c, h);
      HostRoomSame(p, after.free, r.free, last, c);
    }
  }

  lemma HostRoomSame(p: Plan, a: Free, b: Free, h: Host, c: Cost)
    requires Positive(c) && SameOn(a, b, h)
    ensures HostRoom(p, a, h, c) == HostRoom(p, b, h, c)
  {
  }

  /** Within a uniform rank the count is the lesser of the hosts' room and the deployment's. */
  lemma {:induction false} FillUniform(p: Plan, s: seq<Host>, r: Room, c: Cost)
    requires PositiveCosts(p) && Positive(c) && Uniform(p, s, c) && Distinct(s)
    ensures
      var n := Min(HostRooms(p, r.free, s, c), DeploymentRoom(r, c));
      && |Fill(p, s, r).hosts| == n
      && Fill(p, s, r).room.vcpu == r.vcpu - n * c.vcpu
      && Fill(p, s, r).room.memory == r.memory - n * c.memory
    decreases Max(r.vcpu, 0)
  {
    hide RoomFor, Better, Spend, HostRoom, DeploymentRoom;
    var b := Best(p, r, s);
    var n := Min(HostRooms(p, r.free, s, c), DeploymentRoom(r, c));
    if b.Some? {
      var h := b.value;
      var after := Spend(p, r, h);
      SpendDecreases(p, r, h);
      RoomForIsTheLesser(p, r, h, c);
      SpendTakesOne(p, r, h, c);
      SpendTakesOneOfMany(p, r, s, c, h);
      FillUniform(p, s, after, c);
      OneFewer(n, c.vcpu);
      OneFewer(n, c.memory);
    } else {
      NothingFits(p, s, r, c);
    }
  }

  lemma OneFewer(n: int, x: int)
    ensures (n - 1) * x + x == n * x
  {
  }

  lemma NothingFits(p: Plan, s: seq<Host>, r: Room, c: Cost)
    requires PositiveCosts(p) && Positive(c) && Uniform(p, s, c) && Best(p, r, s).None?
    ensures Min(HostRooms(p, r.free, s, c), DeploymentRoom(r, c)) == 0
  {
    hide RoomFor, HostRoom;
    if DeploymentRoom(r, c) > 0 {
      forall h | h in s ensures HostRoom(p, r.free, h, c) == 0 {
        RoomForIsTheLesser(p, r, h, c);
        HostRoomNonNegative(p, r.free, h, c);
      }
      HostRoomsZero(p, r.free, s, c);
    }
  }

  lemma HostRoomNonNegative(p: Plan, f: Free, h: Host, c: Cost)
    requires Positive(c)
    ensures HostRoom(p, f, h, c) >= 0
  {
  }
}

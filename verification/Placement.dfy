/**
 The placer's arithmetic as mathematics: what room a host has, which host a
 reservation is aimed at, and what placing one job at a time until nothing fits
 amounts to. `Placer.dfy` holds the code that works on the shared maps.
 */
module Placement {
  import opened Names

  type Host = string

  datatype Option<+T> = None | Some(value: T)

  /** What one lease consumes on a host; `instanceType` is the remote shape bought, or "". */
  datatype Cost = Cost(vcpu: int, memory: int, instanceType: string)

  datatype Policy = Pack | Spread | Tightest

  datatype Size = Size(vcpu: int, memory: int)

  /** What a placer does not change while it places: the charge and the preference of each candidate. */
  datatype Plan = Plan(
    cost: map<Host, Cost>,
    rank: map<Host, int>,
    policy: Policy,
    sizes: map<Host, Size>,
    macOS: bool)

  /** What every host has left. Absent hosts read as zero, as a Go map does. */
  datatype Free = Free(vcpu: map<Host, int>, memory: map<Host, int>, macOS: map<Host, int>)

  /** What a placer spends: the hosts' room and the deployment's. */
  datatype Room = Room(free: Free, vcpu: int, memory: int)

  function At(m: map<Host, int>, h: Host): int
  {
    if h in m then m[h] else 0
  }

  function Min(a: int, b: int): int { if a <= b then a else b }

  function Max(a: int, b: int): int { if a >= b then a else b }

  /** Go's integer division by a positive divisor: whole divisors taken off toward zero. */
  function Quot(a: int, b: int): (q: int)
    requires b > 0
    ensures q >= 1 <==> a >= b
    ensures q >= 0 <==> a > -b
    decreases if a >= 0 then a else -a
  {
    if a >= b then Quot(a - b, b) + 1
    else if a <= -b then Quot(a + b, b) - 1
    else 0
  }

  /** Quot is truncating division, and cutting it off at zero makes it agree with
      dividing what is really free, whatever convention a language rounds by. */
  lemma {:induction false} QuotTruncates(a: int, b: int)
    requires b > 0
    ensures Quot(a, b) == if a >= 0 then a / b else -((-a) / b)
    decreases if a >= 0 then a else -a
  {
    var x := if a >= 0 then a else -a;
    if x < b {
      QuotientUnique(x, b, 0, x);
    } else {
      QuotTruncates(if a >= 0 then a - b else a + b, b);
      DivStep(x, b);
    }
  }

  lemma DivStep(x: int, b: int)
    requires b > 0
    ensures x / b == (x - b) / b + 1
  {
    var q, r := (x - b) / b, (x - b) % b;
    assert x - b == q * b + r;
    assert (q + 1) * b == q * b + b;
    QuotientUnique(x, b, q + 1, r);
  }

  lemma QuotCut(a: int, b: int)
    requires b > 0
    ensures Max(Quot(a, b), 0) == Max(a, 0) / b
  {
    QuotTruncates(a, b);
    QuotTruncates(0, b);
  }

  lemma QuotientUnique(x: int, b: int, q: int, r: int)
    requires 0 <= r < b && x == q * b + r
    ensures x / b == q
  {
    assert x == (x / b) * b + x % b;
    NoMultipleBetween(x / b - q, b, r - x % b);
  }

  lemma NoMultipleBetween(d: int, b: int, e: int)
    requires d * b == e && -b < e < b
    ensures d == 0
  {
    assert d >= 1 ==> d * b >= b;
    assert d <= -1 ==> d * b <= -b;
  }

  predicate Positive(c: Cost) { c.vcpu > 0 && c.memory > 0 }

  predicate PositiveCosts(p: Plan)
  {
    forall h :: h in p.cost ==> Positive(p.cost[h])
  }

  predicate Distinct<T(==)>(s: seq<T>)
  {
    forall i, j :: 0 <= i < j < |s| ==> s[i] != s[j]
  }

  /** How many leases charging `c` the room of host `h` alone holds. */
  function HostRoom(p: Plan, f: Free, h: Host, c: Cost): int
    requires Positive(c)
  {
    var room := Min(Quot(At(f.vcpu, h), c.vcpu), Quot(At(f.memory, h), c.memory));
    Max(if p.macOS then Min(room, At(f.macOS, h)) else room, 0)
  }

  /** How many leases charging `c` the deployment's room holds. */
  function DeploymentRoom(r: Room, c: Cost): int
    requires Positive(c)
  {
    Max(Min(Quot(r.vcpu, c.vcpu), Quot(r.memory, c.memory)), 0)
  }

  /** How many more leases a host can take. */
  function RoomFor(p: Plan, r: Room, h: Host): (n: int)
    requires PositiveCosts(p)
    ensures n >= 0
  {
    if h !in p.cost then 0
    else
      var c := p.cost[h];
      var room := Min(Quot(At(r.free.vcpu, h), c.vcpu), Quot(At(r.free.memory, h), c.memory));
      var capped := Min(Min(room, Quot(r.vcpu, c.vcpu)), Quot(r.memory, c.memory));
      Max(if p.macOS then Min(capped, At(r.free.macOS, h)) else capped, 0)
  }

  /** A host has room exactly when one more lease leaves nothing negative anywhere. */
  lemma RoomForMeansFits(p: Plan, r: Room, h: Host)
    requires PositiveCosts(p)
    ensures RoomFor(p, r, h) > 0 <==>
      && h in p.cost
      && At(r.free.vcpu, h) >= p.cost[h].vcpu && At(r.free.memory, h) >= p.cost[h].memory
      && r.vcpu >= p.cost[h].vcpu && r.memory >= p.cost[h].memory
      && (p.macOS ==> At(r.free.macOS, h) >= 1)
  {
  }

  lemma {:induction false} QuotAtLeast(a: int, b: int, n: nat)
    requires b > 0 && n > 0
    ensures Quot(a, b) >= n <==> n * b <= a
  {
    if n > 1 {
      assert n * b == (n - 1) * b + b;
      AtLeastOnce(n - 1, b);
      if a >= b {
        QuotAtLeast(a - b, b, n - 1);
      }
    }
  }

  lemma AtLeastOnce(n: nat, b: int)
    requires b > 0 && n > 0
    ensures n * b >= b
  {
  }

  /** How many more leases a host can take: the most that fit it, its licences and the deployment together. */
  lemma RoomForIsMost(p: Plan, r: Room, h: Host, n: nat)
    requires PositiveCosts(p) && n > 0
    ensures RoomFor(p, r, h) >= n <==>
      && h in p.cost
      && n * p.cost[h].vcpu <= At(r.free.vcpu, h) && n * p.cost[h].memory <= At(r.free.memory, h)
      && n * p.cost[h].vcpu <= r.vcpu && n * p.cost[h].memory <= r.memory
      && (p.macOS ==> n <= At(r.free.macOS, h))
  {
    if h in p.cost {
      var c := p.cost[h];
      QuotAtLeast(At(r.free.vcpu, h), c.vcpu, n);
      QuotAtLeast(At(r.free.memory, h), c.memory, n);
      QuotAtLeast(r.vcpu, c.vcpu, n);
      QuotAtLeast(r.memory, c.memory, n);
    }
  }

  /** What a host would have free after one more lease, in shares of its own size. */
  function LeftOver(p: Plan, r: Room, h: Host): real
  {
    var size := if h in p.sizes then p.sizes[h] else Size(0, 0);
    var cost := if h in p.cost then p.cost[h] else Cost(0, 0, "");
    (if size.vcpu > 0 then (At(r.free.vcpu, h) - cost.vcpu) as real / size.vcpu as real else 0.0) +
    (if size.memory > 0 then (At(r.free.memory, h) - cost.memory) as real / size.memory as real else 0.0)
  }

  /** Preference, then policy, then name. */
  predicate Better(p: Plan, r: Room, a: Host, roomA: int, b: Host, roomB: int)
  {
    if At(p.rank, a) != At(p.rank, b) then At(p.rank, a) < At(p.rank, b)
    else if p.policy == Tightest then
      if LeftOver(p, r, a) != LeftOver(p, r, b) then LeftOver(p, r, a) < LeftOver(p, r, b)
      else Before(a, b)
    else if roomA != roomB then
      if p.policy == Spread then roomA > roomB else roomA < roomB
    else Before(a, b)
  }

  /** The host the next reservation is aimed at among `s`, scanning left to right. */
  function Best(p: Plan, r: Room, s: seq<Host>): (best: Option<Host>)
    requires PositiveCosts(p)
    ensures best.Some? ==> best.value in s && best.value in p.cost && RoomFor(p, r, best.value) > 0
    ensures best.None? ==> forall h :: h in s ==> RoomFor(p, r, h) == 0
  {
    if s == [] then None
    else
      var prev := Best(p, r, s[..|s| - 1]);
      var h := s[|s| - 1];
      assert s == s[..|s| - 1] + [h];
      if RoomFor(p, r, h) <= 0 then prev
      else if prev.None? || Better(p, r, h, RoomFor(p, r, h), prev.value, RoomFor(p, r, prev.value)) then Some(h)
      else prev
  }

  /** Takes one lease off a host and off the deployment. */
  function Spend(p: Plan, r: Room, h: Host): Room
    requires h in p.cost
  {
    var c := p.cost[h];
    Room(
      Free(r.free.vcpu[h := At(r.free.vcpu, h) - c.vcpu],
           r.free.memory[h := At(r.free.memory, h) - c.memory],
           if p.macOS then r.free.macOS[h := At(r.free.macOS, h) - 1] else r.free.macOS),
      r.vcpu - c.vcpu,
      r.memory - c.memory)
  }

  /** The hosts chosen, in order, and the room left. */
  datatype Placed = Placed(hosts: seq<Host>, room: Room)

  /** Placing one job at a time on the hosts of `s` until none has room: the slow, obvious
      meaning of "how many fit". */
  function Fill(p: Plan, s: seq<Host>, r: Room): Placed
    requires PositiveCosts(p)
    decreases Max(r.vcpu, 0)
  {
    match Best(p, r, s)
    case None => Placed([], r)
    case Some(h) =>
      RoomForMeansFits(p, r, h);
      var rest := Fill(p, s, Spend(p, r, h));
      Placed([h] + rest.hosts, rest.room)
  }

  /** Placing at most `n` jobs, stopping early when nothing has room. */
  function Draw(p: Plan, s: seq<Host>, r: Room, n: nat): (d: Placed)
    requires PositiveCosts(p)
    ensures |d.hosts| <= n
    ensures forall h :: h in d.hosts ==> h in s && h in p.cost
    decreases n
  {
    if n == 0 || Best(p, r, s).None? then Placed([], r)
    else
      var h := Best(p, r, s).value;
      var rest := Draw(p, s, Spend(p, r, h), n - 1);
      Placed([h] + rest.hosts, rest.room)
  }

  lemma {:induction false} DrawIsFillPrefix(p: Plan, s: seq<Host>, r: Room, n: nat)
    requires PositiveCosts(p)
    ensures Draw(p, s, r, n).hosts == Fill(p, s, r).hosts[..Min(n, |Fill(p, s, r).hosts|)]
    ensures n >= |Fill(p, s, r).hosts| ==> Draw(p, s, r, n) == Fill(p, s, r)
    decreases n
  {
    hide RoomFor, Better, Spend;
    if Best(p, r, s).Some? && n > 0 {
      DrawIsFillPrefix(p, s, Spend(p, r, Best(p, r, s).value), n - 1);
    }
  }

  /** One placement, where one fits. */
  function Step(p: Plan, s: seq<Host>, d: Placed): Placed
    requires PositiveCosts(p)
  {
    var b := Best(p, d.room, s);
    if b.None? then d else Placed(d.hosts + [b.value], Spend(p, d.room, b.value))
  }

  /** A draw grows at its end, which is how a loop sees it. */
  lemma {:induction false} DrawStep(p: Plan, s: seq<Host>, r: Room, n: nat)
    requires PositiveCosts(p)
    ensures Draw(p, s, r, n + 1) == Step(p, s, Draw(p, s, r, n))
    ensures |Draw(p, s, r, n).hosts| <= n
    ensures |Draw(p, s, r, n).hosts| < n ==> Best(p, Draw(p, s, r, n).room, s).None?
    decreases n
  {
    hide RoomFor, Better, Spend;
    var b := Best(p, r, s);
    if b.Some? {
      var after := Spend(p, r, b.value);
      if n > 0 {
        DrawStep(p, s, after, n - 1);
        StepAfter(p, s, b.value, Draw(p, s, after, n - 1));
      } else {
        assert Draw(p, s, after, 0) == Placed([], after);
      }
    }
  }

  lemma StepAfter(p: Plan, s: seq<Host>, h: Host, d: Placed)
    requires PositiveCosts(p)
    ensures Step(p, s, Placed([h] + d.hosts, d.room)) == Placed([h] + Step(p, s, d).hosts, Step(p, s, d).room)
  {
    var b := Best(p, d.room, s);
    if b.Some? {
      assert ([h] + d.hosts) + [b.value] == [h] + (d.hosts + [b.value]);
    }
  }

  // ---- The choice is a maximum, so the order hosts are listed in decides nothing ----

  lemma BetterStrict(p: Plan, r: Room, a: Host, roomA: int, b: Host, roomB: int)
    ensures !(Better(p, r, a, roomA, b, roomB) && Better(p, r, b, roomB, a, roomA))
    ensures a != b ==> Better(p, r, a, roomA, b, roomB) || Better(p, r, b, roomB, a, roomA)
  {
    if a != b {
      BeforeTotal(a, b);
    }
    if Before(a, b) && Before(b, a) {
      BeforeTransitive(a, b, a);
    }
    BeforeIrreflexive(a);
  }

  lemma BetterTransitive(p: Plan, r: Room, a: Host, roomA: int, b: Host, roomB: int, c: Host, roomC: int)
    requires Better(p, r, a, roomA, b, roomB) && Better(p, r, b, roomB, c, roomC)
    ensures Better(p, r, a, roomA, c, roomC)
  {
    if Before(a, b) && Before(b, c) {
      BeforeTransitive(a, b, c);
    }
  }

  /** Better, asked about the room the two hosts really have. */
  predicate Prefers(p: Plan, r: Room, a: Host, b: Host)
    requires PositiveCosts(p)
  {
    Better(p, r, a, RoomFor(p, r, a), b, RoomFor(p, r, b))
  }

  lemma {:induction false} BestIsBetter(p: Plan, r: Room, s: seq<Host>, h: Host)
    requires PositiveCosts(p) && Best(p, r, s).Some?
    requires h in s && RoomFor(p, r, h) > 0 && h != Best(p, r, s).value
    ensures Prefers(p, r, Best(p, r, s).value, h)
  {
    var front, last := s[..|s| - 1], s[|s| - 1];
    assert s == front + [last];
    var prev, best := Best(p, r, front), Best(p, r, s).value;
    if h in front {
      if prev.value != h {
        BestIsBetter(p, r, front, h);
      }
      if best != prev.value && prev.value != h {
        BetterTransitive(p, r, best, RoomFor(p, r, best), prev.value, RoomFor(p, r, prev.value), h, RoomFor(p, r, h));
      }
    } else {
      BetterStrict(p, r, best, RoomFor(p, r, best), h, RoomFor(p, r, h));
    }
  }

  /** What of a host's size would be left free by one more lease, vCPU and memory each as a share of its own. */
  function ShareLeft(freeVCPU: int, freeMemory: int, cost: Cost, size: Size): real
    requires size.vcpu > 0 && size.memory > 0
  {
    (freeVCPU - cost.vcpu) as real / size.vcpu as real + (freeMemory - cost.memory) as real / size.memory as real
  }

  /** The order hosts with room come in: the tier's most preferred backend; then by packing the least room, by
      spreading the most, by fitting tightly the least share of the host left; then the first name. */
  predicate ComesFirst(p: Plan, r: Room, h: Host, g: Host)
    requires PositiveCosts(p) && h in p.cost && g in p.cost
  {
    && At(p.rank, h) <= At(p.rank, g)
    && (At(p.rank, h) == At(p.rank, g) ==>
          && (p.policy == Pack ==> RoomFor(p, r, h) <= RoomFor(p, r, g) && (RoomFor(p, r, h) == RoomFor(p, r, g) ==> Before(h, g)))
          && (p.policy == Spread ==> RoomFor(p, r, h) >= RoomFor(p, r, g) && (RoomFor(p, r, h) == RoomFor(p, r, g) ==> Before(h, g)))
          && (p.policy == Tightest && Sized(p, h) && Sized(p, g) ==>
                var left := ShareLeft(At(r.free.vcpu, h), At(r.free.memory, h), p.cost[h], p.sizes[h]);
                var other := ShareLeft(At(r.free.vcpu, g), At(r.free.memory, g), p.cost[g], p.sizes[g]);
                left <= other && (left == other ==> Before(h, g))))
  }

  predicate Sized(p: Plan, h: Host) { h in p.sizes && p.sizes[h].vcpu > 0 && p.sizes[h].memory > 0 }

  /** The host chosen comes first of every other host with room. */
  lemma BestIsPreferred(p: Plan, r: Room, s: seq<Host>, g: Host)
    requires PositiveCosts(p) && Best(p, r, s).Some?
    requires g in s && RoomFor(p, r, g) > 0 && g != Best(p, r, s).value
    ensures g in p.cost && ComesFirst(p, r, Best(p, r, s).value, g)
  {
    hide Best;
    BestIsBetter(p, r, s, g);
  }

  /** Listing the same hosts in another order changes no choice. */
  lemma BestIgnoresOrder(p: Plan, r: Room, s: seq<Host>, t: seq<Host>)
    requires PositiveCosts(p)
    requires forall h :: h in s <==> h in t
    ensures Best(p, r, s) == Best(p, r, t)
  {
    if Best(p, r, s).Some? && Best(p, r, t).Some? {
      var a, b := Best(p, r, s).value, Best(p, r, t).value;
      if a != b {
        BestIsBetter(p, r, s, b);
        BestIsBetter(p, r, t, a);
        BetterStrict(p, r, a, RoomFor(p, r, a), b, RoomFor(p, r, b));
      }
    }
  }
}

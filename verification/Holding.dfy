/** When a host held for a waiting shape will have room for it. */
module Holding {
  import opened Placement
  import opened Sorting

  /** An open lease on the host: what it holds, when it is predicted to end, and whether that can be believed. */
  datatype HeldLease = HeldLease(vcpu: nat, memory: nat, end: int, stuck: bool, late: bool)

  datatype Ready = Never | At(time: int, late: bool)

  function Freed(leases: seq<HeldLease>, counts: HeldLease -> bool): (s: Size)
    ensures s.vcpu >= 0 && s.memory >= 0
  {
    if leases == [] then Size(0, 0)
    else
      var prev, last := Freed(leases[..|leases| - 1], counts), leases[|leases| - 1];
      if counts(last) then Size(prev.vcpu + last.vcpu, prev.memory + last.memory) else prev
  }

  predicate Fits(cost: Size, free: Size, freed: Size)
  {
    free.vcpu + freed.vcpu >= cost.vcpu && free.memory + freed.memory >= cost.memory
  }

  function EndOf(l: HeldLease): int { l.end }

  predicate Unstuck(l: HeldLease) { !l.stuck }

  predicate Any(l: HeldLease) { true }

  function EndingBy(t: int): HeldLease -> bool { (l: HeldLease) => !l.stuck && l.end <= t }

  /** The shape fits once every lease that is not stuck and ends by `t` is gone. */
  predicate FitsBy(cost: Size, free: Size, leases: seq<HeldLease>, t: int)
  {
    Fits(cost, free, Freed(leases, EndingBy(t)))
  }

  /** The shape fits once every lease that is not stuck is gone. */
  predicate FitsUnstuck(cost: Size, free: Size, leases: seq<HeldLease>)
  {
    Fits(cost, free, Freed(leases, Unstuck))
  }

  /** The shape fits on the host empty: otherwise it is too small for it. */
  predicate FitsEmpty(cost: Size, free: Size, leases: seq<HeldLease>)
  {
    Fits(cost, free, Freed(leases, Any))
  }

  // ---- Sums do not care about order ----

  lemma {:induction false} FreedAppend(a: seq<HeldLease>, b: seq<HeldLease>, counts: HeldLease -> bool)
    ensures
      var x, y := Freed(a, counts), Freed(b, counts);
      Freed(a + b, counts) == Size(x.vcpu + y.vcpu, x.memory + y.memory)
  {
    if b == [] {
      assert a + b == a;
    } else {
      assert (a + b)[..|a + b| - 1] == a + b[..|b| - 1];
      FreedAppend(a, b[..|b| - 1], counts);
    }
  }

  lemma FreedTake(s: seq<HeldLease>, i: nat, counts: HeldLease -> bool)
    requires i < |s|
    ensures
      var rest := Freed(s[..i] + s[i + 1..], counts);
      Freed(s, counts) == if counts(s[i]) then Size(rest.vcpu + s[i].vcpu, rest.memory + s[i].memory) else rest
  {
    hide Freed;
    assert s == s[..i] + ([s[i]] + s[i + 1..]);
    FreedAppend(s[..i], [s[i]] + s[i + 1..], counts);
    FreedAppend([s[i]], s[i + 1..], counts);
    FreedAppend(s[..i], s[i + 1..], counts);
    FreedOne(s[i], counts);
  }

  lemma FreedOne(l: HeldLease, counts: HeldLease -> bool)
    ensures Freed([l], counts) == if counts(l) then Size(l.vcpu, l.memory) else Size(0, 0)
  {
    assert [l][..0] == [];
  }

  lemma SameWithoutOne(a: seq<HeldLease>, b: seq<HeldLease>, i: nat)
    requires multiset(a) == multiset(b) && a != [] && i < |b| && b[i] == a[|a| - 1]
    ensures multiset(a[..|a| - 1]) == multiset(b[..i] + b[i + 1..])
  {
    assert a == a[..|a| - 1] + [a[|a| - 1]];
    assert b == b[..i] + [b[i]] + b[i + 1..];
    assert multiset(a[..|a| - 1]) == multiset(a) - multiset{b[i]};
  }

  lemma {:induction false} FreedPermutes(a: seq<HeldLease>, b: seq<HeldLease>, counts: HeldLease -> bool)
    requires multiset(a) == multiset(b)
    ensures Freed(a, counts) == Freed(b, counts)
    decreases |a|
  {
    hide Freed;
    assert |multiset(a)| == |a| && |multiset(b)| == |b|;
    if a == [] {
      assert a == b;
    } else {
      assert a[|a| - 1] in multiset(b);
      var i :| 0 <= i < |b| && b[i] == a[|a| - 1];
      SameWithoutOne(a, b, i);
      FreedPermutes(a[..|a| - 1], b[..i] + b[i + 1..], counts);
      FreedTake(a, |a| - 1, counts);
      assert a[..|a| - 1] + a[|a|..] == a[..|a| - 1];
      FreedTake(b, i, counts);
    }
  }

  /** Counting fewer of them frees no more. */
  lemma {:induction false} FreedFewer(s: seq<HeldLease>, fewer: HeldLease -> bool, more: HeldLease -> bool)
    requires forall l :: l in s && fewer(l) ==> more(l)
    ensures Freed(s, fewer).vcpu <= Freed(s, more).vcpu && Freed(s, fewer).memory <= Freed(s, more).memory
  {
    if s != [] {
      assert s[|s| - 1] in s;
      FreedFewer(s[..|s| - 1], fewer, more);
    }
  }

  /** In the order they end, what ends earlier than the next lease is among those passed. */
  lemma EarlierIsPassed(sorted: seq<HeldLease>, i: nat, t: int)
    requires i < |sorted| && Ascending(sorted, EndOf) && t < sorted[i].end
    ensures
      var early, past := Freed(sorted, EndingBy(t)), Freed(sorted[..i], Unstuck);
      early.vcpu <= past.vcpu && early.memory <= past.memory
  {
    hide Freed;
    assert sorted == sorted[..i] + sorted[i..];
    FreedAppend(sorted[..i], sorted[i..], EndingBy(t));
    forall l | l in sorted[i..] ensures !EndingBy(t)(l) {
      var j :| i <= j < |sorted| && sorted[j] == l;
      assert EndOf(sorted[i]) <= EndOf(sorted[j]);
    }
    FreedNone(sorted[i..], EndingBy(t));
    FreedFewer(sorted[..i], EndingBy(t), Unstuck);
  }

  /** What has been passed ends by the last one passed. */
  lemma PassedEndBy(sorted: seq<HeldLease>, i: nat)
    requires i < |sorted| && Ascending(sorted, EndOf)
    ensures
      var past, late := Freed(sorted[..i + 1], Unstuck), Freed(sorted, EndingBy(sorted[i].end));
      past.vcpu <= late.vcpu && past.memory <= late.memory
  {
    hide Freed;
    var counts := EndingBy(sorted[i].end);
    assert sorted == sorted[..i + 1] + sorted[i + 1..];
    FreedAppend(sorted[..i + 1], sorted[i + 1..], counts);
    forall l | l in sorted[..i + 1] && Unstuck(l) ensures counts(l) {
      var j :| 0 <= j <= i && sorted[j] == l;
      assert EndOf(sorted[j]) <= EndOf(sorted[i]);
    }
    FreedFewer(sorted[..i + 1], Unstuck, counts);
  }

  lemma {:induction false} FreedNone(s: seq<HeldLease>, counts: HeldLease -> bool)
    requires forall l :: l in s ==> !counts(l)
    ensures Freed(s, counts) == Size(0, 0)
  {
    if s != [] {
      assert s[|s| - 1] in s;
      FreedNone(s[..|s| - 1], counts);
    }
  }

  /** The leases in the order they are predicted to end, as listed where two end together. */
  function ByEnd(leases: seq<HeldLease>): (sorted: seq<HeldLease>)
    ensures |sorted| == |leases|
  {
    StableSort(leases, EndOf)
  }

  /** The shape fits with every unstuck lease up to this place gone. */
  predicate FitsAfter(cost: Size, free: Size, sorted: seq<HeldLease>, i: int)
    requires 0 <= i < |sorted|
  {
    Fits(cost, free, Freed(sorted[..i + 1], Unstuck))
  }

  /** The first place in an order where the shape fits with every unstuck lease so far gone. */
  predicate FirstFit(cost: Size, free: Size, sorted: seq<HeldLease>, i: int)
  {
    && 0 <= i < |sorted| && Unstuck(sorted[i]) && FitsAfter(cost, free, sorted, i)
    && forall j :: 0 <= j < i ==> !FitsAfter(cost, free, sorted, j)
  }

  /** Some unstuck lease up to this place runs late. */
  predicate LateUpTo(sorted: seq<HeldLease>, i: int)
    requires 0 <= i < |sorted|
  {
    exists j :: 0 <= j <= i && Unstuck(sorted[j]) && sorted[j].late
  }

  // ---- The code ----

  /** Whether a shape would fit once all of a host's leases had gone. */
  method EverFits(cost: Size, free: Size, leases: seq<HeldLease>) returns (fits: bool)
    ensures fits == FitsEmpty(cost, free, leases)
  {
    var vcpu, memory := free.vcpu, free.memory;
    for i := 0 to |leases|
      invariant vcpu == free.vcpu + Freed(leases[..i], Any).vcpu && memory == free.memory + Freed(leases[..i], Any).memory
    {
      assert leases[..i + 1][..i] == leases[..i];
      vcpu, memory := vcpu + leases[i].vcpu, memory + leases[i].memory;
    }
    assert leases[..|leases|] == leases;
    fits := vcpu >= cost.vcpu && memory >= cost.memory;
  }

  /** When the shape fits, as the leases are predicted to end: the least such time, or never exactly when every
      lease that is not stuck going would not be enough, and then the host is large enough for it. It is late when an
      unstuck lease is late that stands no later in that order than the first place where the shape fits. */
  method ReadyAt(cost: Size, free: Size, leases: seq<HeldLease>, now: int) returns (r: Ready)
    ensures Fits(cost, free, Size(0, 0)) ==> r == At(now, false)
    ensures !Fits(cost, free, Size(0, 0)) ==> (r.Never? <==> !FitsUnstuck(cost, free, leases))
    ensures r.At? ==> FitsEmpty(cost, free, leases)
    ensures !Fits(cost, free, Size(0, 0)) && r.At? ==>
      && FitsBy(cost, free, leases, r.time)
      && (forall t :: t < r.time ==> !FitsBy(cost, free, leases, t))
      && (exists i :: FirstFit(cost, free, ByEnd(leases), i) && ByEnd(leases)[i].end == r.time && r.late == LateUpTo(ByEnd(leases), i))
  {
    hide Freed, StableSort;
    if free.vcpu >= cost.vcpu && free.memory >= cost.memory {
      return At(now, false);
    }
    var sorted := ByEnd(leases);
    SortAscends(leases, EndOf);
    SortKeepsMembers(leases, EndOf);
    forall counts: HeldLease -> bool ensures Freed(sorted, counts) == Freed(leases, counts) {
      FreedPermutes(sorted, leases, counts);
    }
    var vcpu, memory, late := free.vcpu, free.memory, false;
    FreedNone([], Unstuck);
    assert sorted[..0] == [];
    for i := 0 to |sorted|
      invariant vcpu == free.vcpu + Freed(sorted[..i], Unstuck).vcpu && memory == free.memory + Freed(sorted[..i], Unstuck).memory
      invariant !(vcpu >= cost.vcpu && memory >= cost.memory)
      invariant forall j :: 0 <= j < i ==> !FitsAfter(cost, free, sorted, j)
      invariant late <==> exists j :: 0 <= j < i && Unstuck(sorted[j]) && sorted[j].late
    {
      FreedNext(sorted, i);
      if sorted[i].stuck {
        continue;
      }
      vcpu, memory := vcpu + sorted[i].vcpu, memory + sorted[i].memory;
      late := late || sorted[i].late;
      if vcpu >= cost.vcpu && memory >= cost.memory {
        r := At(sorted[i].end, late);
        PassedEndBy(sorted, i);
        forall t | t < r.time ensures !FitsBy(cost, free, leases, t) {
          EarlierIsPassed(sorted, i, t);
        }
        assert FirstFit(cost, free, sorted, i) && late == LateUpTo(sorted, i);
        FitsBySomeTimeFits(cost, free, leases, r.time);
        return;
      }
    }
    assert sorted[..|sorted|] == sorted;
    r := Never;
  }

  lemma FreedNext(s: seq<HeldLease>, i: nat)
    requires i < |s|
    ensures
      var was := Freed(s[..i], Unstuck);
      Freed(s[..i + 1], Unstuck) == if s[i].stuck then was else Size(was.vcpu + s[i].vcpu, was.memory + s[i].memory)
  {
    assert s[..i + 1][..i] == s[..i];
  }

  lemma FitsBySomeTimeFits(cost: Size, free: Size, leases: seq<HeldLease>, t: int)
    requires FitsBy(cost, free, leases, t)
    ensures FitsUnstuck(cost, free, leases) && FitsEmpty(cost, free, leases)
  {
    FreedFewer(leases, EndingBy(t), Unstuck);
    FreedFewer(leases, EndingBy(t), Any);
  }
}

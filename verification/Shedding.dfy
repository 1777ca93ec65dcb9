/** Giving back reservations on a host that no longer holds them all. */
module Shedding {
  import opened Placement
  import opened Catalogue
  import opened LedgerState
  import opened Sorting

  /** A reservation that may be given back. */
  datatype Candidate = Candidate(id: nat, vcpu: nat, memory: nat)

  /** The fraction of one deficit an amount closes; surplus does not count. */
  function Closes(amount: nat, over: int): real
  {
    if over <= 0 then 0.0 else (Min(amount, over) as real) / (over as real)
  }

  /** How much of the remaining shortfall a reservation would settle, each dimension as a fraction of its own. */
  function Covers(c: Candidate, over: Size): real
  {
    Closes(c.vcpu, over.vcpu) + Closes(c.memory, over.memory)
  }

  /** The first candidate covering the most. */
  function BestAmong(cs: seq<Candidate>, over: Size, k: nat): (b: nat)
    requires 0 < k <= |cs|
    ensures b < k
    ensures forall i :: 0 <= i < k ==> Covers(cs[i], over) <= Covers(cs[b], over)
    ensures forall i :: 0 <= i < b ==> Covers(cs[i], over) < Covers(cs[b], over)
  {
    if k == 1 then 0
    else
      var b := BestAmong(cs, over, k - 1);
      if Covers(cs[k - 1], over) > Covers(cs[b], over) then k - 1 else b
  }

  predicate Settled(over: Size) { over.vcpu <= 0 && over.memory <= 0 }

  function Without<T>(s: seq<T>, i: nat): (t: seq<T>)
    requires i < |s|
    ensures |t| == |s| - 1
    ensures multiset(t) + multiset{s[i]} == multiset(s)
  {
    assert s == s[..i] + [s[i]] + s[i + 1..];
    s[..i] + s[i + 1..]
  }

  function Less(over: Size, c: Candidate): Size { Size(over.vcpu - c.vcpu, over.memory - c.memory) }

  /** What is given back: the best cover each time, until nothing is short or nothing is left. */
  function Shed(cs: seq<Candidate>, over: Size): (out: seq<Candidate>)
    ensures |out| <= |cs| && multiset(out) <= multiset(cs)
    decreases |cs|
  {
    if cs == [] || Settled(over) then []
    else
      var b := BestAmong(cs, over, |cs|);
      var rest := Shed(Without(cs, b), Less(over, cs[b]));
      assert multiset([cs[b]] + rest) == multiset{cs[b]} + multiset(rest);
      [cs[b]] + rest
  }

  function Left(over: Size, cs: seq<Candidate>): Size
  {
    if cs == [] then over else Less(Left(over, cs[..|cs| - 1]), cs[|cs| - 1])
  }

  lemma {:induction false} LeftFirst(over: Size, c: Candidate, cs: seq<Candidate>)
    ensures Left(over, [c] + cs) == Left(Less(over, c), cs)
  {
    if cs == [] {
      assert [c] + cs == [c] && [c][..0] == [];
    } else {
      assert ([c] + cs)[..|cs|] == [c] + cs[..|cs| - 1];
      LeftFirst(over, c, cs[..|cs| - 1]);
    }
  }

  /** Nothing is given back from a host within its size; every candidate given back was still needed when it
      was; and in the end nothing is short or no candidate is left. */
  lemma {:induction false} ShedStopsWhenSettled(cs: seq<Candidate>, over: Size)
    ensures Settled(over) ==> Shed(cs, over) == []
    ensures forall k :: 0 <= k < |Shed(cs, over)| ==> !Settled(Left(over, Shed(cs, over)[..k]))
    ensures Settled(Left(over, Shed(cs, over))) || |Shed(cs, over)| == |cs|
    decreases |cs|
  {
    hide BestAmong, Less, Shed, Without, Settled, Left;
    LeftNothing(over);
    if cs == [] || Settled(over) {
      ShedNothing(cs, over);
    } else {
      ShedStep(cs, over);
      var b := BestAmong(cs, over, |cs|);
      var out, rest := Shed(cs, over), Shed(Without(cs, b), Less(over, cs[b]));
      ShedStopsWhenSettled(Without(cs, b), Less(over, cs[b]));
      LeftFirst(over, cs[b], rest);
      forall k | 0 <= k < |out| ensures !Settled(Left(over, out[..k])) {
        if k > 0 {
          assert out[..k] == [cs[b]] + rest[..k - 1];
          LeftFirst(over, cs[b], rest[..k - 1]);
        } else {
          assert out[..k] == [];
        }
      }
    }
  }

  lemma LeftNothing(over: Size)
    ensures Left(over, []) == over
  {
  }

  /** One step of giving back. */
  lemma ShedStep(cs: seq<Candidate>, over: Size)
    requires cs != [] && !Settled(over)
    ensures
      var b := BestAmong(cs, over, |cs|);
      Shed(cs, over) == [cs[b]] + Shed(Without(cs, b), Less(over, cs[b]))
  {
  }

  lemma ShedNothing(cs: seq<Candidate>, over: Size)
    requires cs == [] || Settled(over)
    ensures Shed(cs, over) == []
  {
  }

  // ---- The fewest that settle a shortfall ----

  datatype Dim = CPU | Bytes {
    function Other(): Dim { if CPU? then Bytes else CPU }
  }

  function Amount(c: Candidate, d: Dim): nat { if d.CPU? then c.vcpu else c.memory }

  function Short(over: Size, d: Dim): int { if d.CPU? then over.vcpu else over.memory }

  function Sum(cs: seq<Candidate>, d: Dim): nat
  {
    if cs == [] then 0 else Sum(cs[..|cs| - 1], d) + Amount(cs[|cs| - 1], d)
  }

  /** A choice of candidates that settles everything short. */
  predicate Settles(t: seq<Candidate>, over: Size)
  {
    Sum(t, CPU) >= over.vcpu && Sum(t, Bytes) >= over.memory
  }

  lemma {:induction false} SumOf(a: seq<Candidate>, b: seq<Candidate>, d: Dim)
    ensures Sum(a + b, d) == Sum(a, d) + Sum(b, d)
  {
    if b == [] {
      assert a + b == a;
    } else {
      assert (a + b)[..|a + b| - 1] == a + b[..|b| - 1];
      SumOf(a, b[..|b| - 1], d);
    }
  }

  lemma SumWithout(t: seq<Candidate>, i: nat, d: Dim)
    requires i < |t|
    ensures Sum(t, d) == Sum(Without(t, i), d) + Amount(t[i], d)
  {
    assert t == t[..i] + ([t[i]] + t[i + 1..]);
    SumOf(t[..i], [t[i]] + t[i + 1..], d);
    SumOf([t[i]], t[i + 1..], d);
    SumOf(t[..i], t[i + 1..], d);
    assert [t[i]][..0] == [];
  }

  function IndexOf<T(==)>(s: seq<T>, x: T): (i: nat)
    requires x in s
    ensures i < |s| && s[i] == x
  {
    if s[0] == x then 0 else 1 + IndexOf(s[1..], x)
  }

  /** Taking from a choice the candidate given back, or one named where it is not in the choice, leaves a choice
      among the rest. */
  lemma TakeOut(cs: seq<Candidate>, b: nat, t: seq<Candidate>, i: nat) returns (j: nat)
    requires b < |cs| && i < |t| && multiset(t) <= multiset(cs)
    ensures j < |t| && (t[j] == cs[b] || (j == i && cs[b] !in t))
    ensures multiset(Without(t, j)) <= multiset(Without(cs, b))
  {
    hide Without;
    j := if cs[b] in t then IndexOf(t, cs[b]) else i;
    var less, rest := Without(t, j), Without(cs, b);
    assert cs[b] !in t ==> multiset(t)[cs[b]] == 0;
    forall c ensures multiset(less)[c] <= multiset(rest)[c] {
      assert multiset(t)[c] <= multiset(cs)[c];
      assert multiset(less)[c] == multiset(t)[c] - (if c == t[j] then 1 else 0);
      assert multiset(rest)[c] == multiset(cs)[c] - (if c == cs[b] then 1 else 0);
    }
  }

  /** A fraction is between nothing and all of its deficit, and compares as the capped amounts do. */
  lemma Fractions(a: nat, b: nat, over: int)
    requires over > 0
    ensures 0.0 <= Closes(a, over) <= 1.0
    ensures Closes(a, over) == 1.0 <==> a >= over
    ensures Closes(0, over) == 0.0
    ensures Closes(a, over) <= Closes(b, over) <==> Min(a, over) <= Min(b, over)
  {
    Quotients(Min(a, over), Min(b, over), over);
    Quotients(Min(a, over), over, over);
    Quotients(over, Min(a, over), over);
    Quotients(0, Min(a, over), over);
    Ends(over);
  }

  lemma Quotients(a: int, b: int, over: int)
    requires over > 0
    ensures (a as real) / (over as real) <= (b as real) / (over as real) <==> a <= b
  {
    var z := over as real;
    var p, q := (a as real) / z, (b as real) / z;
    assert p * z == a as real && q * z == b as real;
    assert (q - p) * z == q * z - p * z;
  }

  lemma Ends(over: int)
    requires over > 0
    ensures (0 as real) / (over as real) == 0.0 && (over as real) / (over as real) == 1.0
  {
  }

  /** With one dimension short, a best cover that does not settle it is the largest there is. */
  lemma UnsettlingIsLargest(cs: seq<Candidate>, over: Size, d: Dim, c: Candidate)
    requires cs != [] && Short(over, d) > 0 && Short(over, d.Other()) <= 0 && c in cs
    ensures
      var best := cs[BestAmong(cs, over, |cs|)];
      Amount(best, d) < Short(over, d) ==> Amount(c, d) <= Amount(best, d)
  {
    hide Closes;
    var best := cs[BestAmong(cs, over, |cs|)];
    Fractions(Amount(c, d), Amount(best, d), Short(over, d));
    NothingShort(c, over, d.Other());
    NothingShort(best, over, d.Other());
  }

  lemma NothingShort(c: Candidate, over: Size, d: Dim)
    requires Short(over, d) <= 0
    ensures Closes(Amount(c, d), Short(over, d)) == 0.0
  {
  }

  /** With one dimension short, no fewer candidates could settle it. */
  lemma {:induction false} FewestForOne(cs: seq<Candidate>, over: Size, d: Dim, t: seq<Candidate>)
    requires Short(over, d.Other()) <= 0 && multiset(t) <= multiset(cs) && Sum(t, d) >= Short(over, d)
    ensures |t| >= |Shed(cs, over)|
    decreases |cs|
  {
    hide Without, BestAmong, Shed, Sum;
    if cs != [] && !Settled(over) {
      ShedStep(cs, over);
      NoneIsNothing(t, d);
      var b := BestAmong(cs, over, |cs|);
      var rest, after := Without(cs, b), Less(over, cs[b]);
      if Settled(after) || rest == [] {
        ShedNothing(rest, after);
      } else {
        var j := TakeOut(cs, b, t, 0);
        SumWithout(t, j, d);
        assert t[j] in multiset(t);
        UnsettlingIsLargest(cs, over, d, t[j]);
        FewestForOne(rest, after, d, Without(t, j));
      }
    } else {
      ShedNothing(cs, over);
    }
  }

  lemma NoneIsNothing(t: seq<Candidate>, d: Dim)
    ensures t == [] ==> Sum(t, d) == 0
  {
  }

  lemma {:induction false} SomeAmount(t: seq<Candidate>, d: Dim) returns (i: nat)
    requires Sum(t, d) > 0
    ensures i < |t| && Amount(t[i], d) > 0
  {
    if Amount(t[|t| - 1], d) > 0 {
      return |t| - 1;
    }
    i := SomeAmount(t[..|t| - 1], d);
  }

  lemma CoversBoth(c: Candidate, over: Size, d: Dim)
    ensures Covers(c, over) == Closes(Amount(c, d), Short(over, d)) + Closes(Amount(c, d.Other()), Short(over, d.Other()))
  {
  }

  /** With a shortfall of one in a dimension, a best cover that touches it leaves no larger candidate that does
      unless it settles the other, and one that does not touch it settles the other. */
  lemma BestForNearlyOne(cs: seq<Candidate>, over: Size, d: Dim, y: Candidate)
    requires Short(over, d) == 1 && Short(over, d.Other()) > 0 && y in cs && Amount(y, d) > 0
    ensures
      var best, o := cs[BestAmong(cs, over, |cs|)], d.Other();
      && (Amount(best, d) > 0 && Amount(best, o) < Short(over, o) ==> Amount(y, o) <= Amount(best, o))
      && (Amount(best, d) == 0 ==> Amount(best, o) >= Short(over, o) && Amount(y, o) < Short(over, o))
  {
    hide BestAmong, Covers, Closes;
    var best, o := cs[BestAmong(cs, over, |cs|)], d.Other();
    CoversBoth(best, over, d);
    CoversBoth(y, over, d);
    Fractions(Amount(y, d), 0, Short(over, d));
    Fractions(Amount(best, d), 0, Short(over, d));
    Fractions(Amount(y, o), Amount(best, o), Short(over, o));
    Fractions(Amount(best, o), 0, Short(over, o));
  }

  /** A shortfall of one in a dimension is as good as none: whatever touches it settles it. */
  lemma FewestForNearlyOne(cs: seq<Candidate>, over: Size, d: Dim, t: seq<Candidate>)
    requires Short(over, d) == 1 && Short(over, d.Other()) > 0 && multiset(t) <= multiset(cs) && Settles(t, over)
    ensures |t| >= |Shed(cs, over)|
  {
    hide Without, BestAmong, Shed, Sum, Covers;
    var o := d.Other();
    var i := SomeAmount(t, d);
    assert t[i] in multiset(t) && t[i] in cs;
    ShedStep(cs, over);
    var b := BestAmong(cs, over, |cs|);
    var best, y := cs[b], t[i];
    var rest, after := Without(cs, b), Less(over, best);
    BestForNearlyOne(cs, over, d, y);
    if Amount(best, d) > 0 {
      if Settled(after) {
        ShedNothing(rest, after);
      } else {
        var j := TakeOut(cs, b, t, i);
        SumWithout(t, j, o);
        FewestForOne(rest, after, o, Without(t, j));
      }
    } else {
      OneSums(y, d);
      OneAmong(cs, b, y);
      FewestForOne(rest, after, d, [y]);
      if |t| == 1 {
        assert t == [y];
        OneSums(y, o);
      }
    }
  }

  lemma OneSums(c: Candidate, d: Dim)
    ensures Sum([c], d) == Amount(c, d)
  {
    assert [c][..0] == [];
  }

  lemma OneAmong(cs: seq<Candidate>, b: nat, y: Candidate)
    requires b < |cs| && y in cs && y != cs[b]
    ensures multiset([y]) <= multiset(Without(cs, b))
  {
    hide Without;
    assert y in multiset(cs);
    assert multiset(Without(cs, b))[y] == multiset(cs)[y];
  }

  // ---- Both dimensions short by two or three ----

  /** Every lease is charged something of both. */
  predicate Costs(c: Candidate) { c.vcpu > 0 && c.memory > 0 }

  predicate AllCost(cs: seq<Candidate>) { forall i :: 0 <= i < |cs| ==> Costs(cs[i]) }

  lemma WithoutCosts(cs: seq<Candidate>, b: nat)
    requires AllCost(cs) && b < |cs|
    ensures AllCost(Without(cs, b))
  {
  }

  /** Every candidate given back brings both deficits down. */
  lemma {:induction false} ShedAtMost(cs: seq<Candidate>, over: Size, k: nat)
    requires AllCost(cs) && over.vcpu <= k && over.memory <= k
    ensures |Shed(cs, over)| <= k
    decreases |cs|
  {
    hide Shed, Without, BestAmong;
    if cs == [] || Settled(over) {
      ShedNothing(cs, over);
    } else {
      ShedStep(cs, over);
      var b := BestAmong(cs, over, |cs|);
      WithoutCosts(cs, b);
      ShedAtMost(Without(cs, b), Less(over, cs[b]), k - 1);
    }
  }

  predicate SettlesAlone(c: Candidate, over: Size) { c.vcpu >= over.vcpu && c.memory >= over.memory }

  /** A candidate that settles everything alone covers as much as any can. */
  lemma SettlerCoversMost(y: Candidate, c: Candidate, over: Size)
    requires SettlesAlone(y, over) && Covers(y, over) <= Covers(c, over)
    ensures SettlesAlone(c, over)
  {
    hide Closes;
    CoversOne(y, c, over, CPU);
    CoversOne(y, c, over, Bytes);
  }

  lemma CoversOne(y: Candidate, c: Candidate, over: Size, d: Dim)
    requires Amount(y, d) >= Short(over, d)
    ensures Closes(Amount(c, d), Short(over, d)) <= Closes(Amount(y, d), Short(over, d))
    ensures Closes(Amount(c, d), Short(over, d)) == Closes(Amount(y, d), Short(over, d)) ==> Amount(c, d) >= Short(over, d)
  {
    if Short(over, d) > 0 {
      hide Closes;
      Fractions(Amount(c, d), Amount(y, d), Short(over, d));
      Fractions(Amount(y, d), Amount(c, d), Short(over, d));
    }
  }

  /** So where one candidate is enough, one is given back. */
  lemma OneIsEnough(cs: seq<Candidate>, over: Size, y: Candidate)
    requires y in cs && SettlesAlone(y, over)
    ensures |Shed(cs, over)| <= 1
  {
    hide Shed, Without, Covers, BestAmong;
    if Settled(over) {
      ShedNothing(cs, over);
    } else {
      ShedStep(cs, over);
      var b := BestAmong(cs, over, |cs|);
      SettlerCoversMost(y, cs[b], over);
      ShedNothing(Without(cs, b), Less(over, cs[b]));
    }
  }

  /** Two amounts that make up a deficit close all of it between them. */
  lemma TwoClose(a: nat, b: nat, over: int)
    requires over > 0 && a + b >= over
    ensures Closes(a, over) + Closes(b, over) >= 1.0
  {
    hide Closes;
    var z := over as real;
    Scaled(a, over);
    Scaled(b, over);
    AtLeastOne(Closes(a, over), Closes(b, over), z, Min(a, over) as real, Min(b, over) as real);
  }

  lemma AtLeastOne(p: real, q: real, z: real, x: real, y: real)
    requires z > 0.0 && p * z == x && q * z == y && x + y >= z
    ensures p + q >= 1.0
  {
    if p + q < 1.0 {
      Above(1.0, p + q, z);
      Distributes(p, q, z);
    }
  }

  lemma Scaled(a: nat, over: int)
    requires over > 0
    ensures Closes(a, over) * (over as real) == Min(a, over) as real
  {
  }

  lemma Distributes(p: real, q: real, z: real)
    ensures (p + q) * z == p * z + q * z
  {
  }

  /** So the best cover is at least half of what two that settle everything cover. */
  lemma BestCoversHalf(best: Candidate, x: Candidate, y: Candidate, over: Size)
    requires over.vcpu > 0 && over.memory > 0 && x.vcpu + y.vcpu >= over.vcpu && x.memory + y.memory >= over.memory
    requires Covers(x, over) <= Covers(best, over) && Covers(y, over) <= Covers(best, over)
    ensures Covers(best, over) >= 1.0
  {
    hide Closes;
    TwoClose(x.vcpu, y.vcpu, over.vcpu);
    TwoClose(x.memory, y.memory, over.memory);
  }

  lemma SmallestCoversLittle(c: Candidate)
    requires c.vcpu == 1 && c.memory == 1
    ensures Covers(c, Size(3, 3)) < 1.0
  {
  }

  /** With both deficits two or three, one of two that settle them settles what the first given back leaves. */
  lemma OneOfTwoFollows(best: Candidate, x: Candidate, y: Candidate, over: Size)
    requires Costs(best) && Costs(x) && Costs(y) && 2 <= over.vcpu <= 3 && 2 <= over.memory <= 3
    requires x.vcpu + y.vcpu >= over.vcpu && x.memory + y.memory >= over.memory
    requires Covers(x, over) <= Covers(best, over) && Covers(y, over) <= Covers(best, over)
    ensures SettlesAlone(x, Less(over, best)) || SettlesAlone(y, Less(over, best))
  {
    hide Covers;
    BestCoversHalf(best, x, y, over);
    if best.vcpu == 1 && best.memory == 1 {
      SmallestCoversLittle(best);
    }
  }

  lemma TwoSum(x: Candidate, y: Candidate, d: Dim)
    ensures Sum([x, y], d) == Amount(x, d) + Amount(y, d)
  {
    hide Sum;
    assert [x, y] == [x] + [y];
    SumOf([x], [y], d);
    OneSums(x, d);
    OneSums(y, d);
  }

  lemma FewestAgainstTwo(cs: seq<Candidate>, over: Size, x: Candidate, y: Candidate)
    requires AllCost(cs) && 2 <= over.vcpu <= 3 && 2 <= over.memory <= 3
    requires multiset([x, y]) <= multiset(cs) && Settles([x, y], over)
    ensures |Shed(cs, over)| <= 2
  {
    hide Shed, Without, Covers, BestAmong, Sum;
    var t := [x, y];
    TwoSum(x, y, CPU);
    TwoSum(x, y, Bytes);
    assert x in multiset(t) && y in multiset(t) && x in cs && y in cs;
    ShedStep(cs, over);
    var b := BestAmong(cs, over, |cs|);
    var best, rest, after := cs[b], Without(cs, b), Less(over, cs[b]);
    OneOfTwoFollows(best, x, y, over);
    var next := if x == best then y else if y == best then x else if SettlesAlone(x, after) then x else y;
    assert SettlesAlone(next, after);
    assert next in multiset(rest) by {
      if next == best {
        assert multiset(t)[best] == 2;
        assert multiset(cs)[best] >= 2;
      } else {
        assert next in multiset(cs);
        assert multiset(cs)[next] == multiset(rest)[next];
      }
    }
    OneIsEnough(rest, after, next);
  }

  lemma FewestForTwosAndThrees(cs: seq<Candidate>, over: Size, t: seq<Candidate>)
    requires AllCost(cs) && 2 <= over.vcpu <= 3 && 2 <= over.memory <= 3 && multiset(t) <= multiset(cs) && Settles(t, over)
    ensures |t| >= |Shed(cs, over)|
  {
    hide Shed, Sum;
    ShedAtMost(cs, over, 3);
    NoneIsNothing(t, CPU);
    if |t| == 1 {
      assert t == [t[0]] && t[0] in multiset(t) && t[0] in cs;
      OneSums(t[0], CPU);
      OneSums(t[0], Bytes);
      OneIsEnough(cs, over, t[0]);
    } else if |t| == 2 {
      assert t == [t[0], t[1]];
      FewestAgainstTwo(cs, over, t[0], t[1]);
    }
  }

  // ---- Beyond that a decoy is taken ----

  /** A candidate of these amounts of a dimension and the other. */
  function Make(id: nat, d: Dim, amount: nat, other: nat): Candidate
  {
    if d.CPU? then Candidate(id, amount, other) else Candidate(id, other, amount)
  }

  /** First one that settles a dimension and touches the other, then two that settle both between them, each about
      half of everything. */
  function Decoy(over: Size, d: Dim, a: nat, b: nat): seq<Candidate>
    requires a <= Short(over, d) && b <= Short(over, d.Other())
  {
    [Make(0, d, Short(over, d), 1), Make(1, d, a, b), Make(2, d, Short(over, d) - a, Short(over, d.Other()) - b)]
  }

  /** The two halves leave the first one's cover the greatest, and neither settles what the first leaves. */
  predicate Balanced(over: Size, d: Dim, a: nat, b: nat)
  {
    var s, o := Short(over, d), Short(over, d.Other());
    0 < a < s && 2 <= b <= o - 2 && Even(s, o, a, b)
  }

  /** Between them, about one whole deficit. */
  predicate Even(s: int, o: int, a: int, b: int) { o * s - s <= a * o + b * s <= o * s + s }

  lemma Halves(s: int, o: int, a: int, b: int)
    requires s > 0 && o > 0 && Even(s, o, a, b)
    ensures
      var x, y, u := (a as real) / (s as real), (b as real) / (o as real), 1.0 / (o as real);
      1.0 - u <= x + y <= 1.0 + u
  {
    var z, w := s as real, o as real;
    var x, y, u := (a as real) / z, (b as real) / w, 1.0 / w;
    var p := z * w;
    assert x * z == a as real && y * w == b as real && u * w == 1.0;
    Product(x, y, u, z, w);
    Casts(s, o, a, b);
    Bounds(x + y, u, p, z);
  }

  lemma Product(x: real, y: real, u: real, z: real, w: real)
    requires u * w == 1.0
    ensures (x + y) * (z * w) == (x * z) * w + (y * w) * z
    ensures u * (z * w) == z
  {
    assert u * (z * w) == (u * w) * z;
  }

  lemma Casts(s: int, o: int, a: int, b: int)
    ensures (a * o + b * s) as real == (a as real) * (o as real) + (b as real) * (s as real)
    ensures (o * s + s) as real == (s as real) * (o as real) + (s as real) && (o * s - s) as real == (s as real) * (o as real) - (s as real)
  {
  }

  lemma Bounds(x: real, u: real, p: real, z: real)
    requires p > 0.0 && u * p == z && p - z <= x * p <= p + z
    ensures 1.0 - u <= x <= 1.0 + u
  {
    assert (1.0 + u) * p == p + u * p && (1.0 - u) * p == p - u * p;
    BelowOf(x, 1.0 + u, p);
    BelowOf(1.0 - u, x, p);
  }

  lemma Above(x: real, y: real, p: real)
    requires p > 0.0 && x > y
    ensures x * p > y * p
  {
    assert (x - y) * p > 0.0;
  }

  lemma BelowOf(x: real, y: real, p: real)
    requires p > 0.0 && x * p <= y * p
    ensures x <= y
  {
    if x > y {
      Above(x, y, p);
    }
  }

  lemma DecoyCovers(over: Size, d: Dim, a: nat, b: nat)
    requires Balanced(over, d, a, b)
    ensures forall i :: 0 <= i < 3 ==> Covers(Decoy(over, d, a, b)[i], over) <= Covers(Decoy(over, d, a, b)[0], over)
  {
    hide Covers, Even;
    var s, o, cs := Short(over, d), Short(over, d.Other()), Decoy(over, d, a, b);
    CoversBoth(cs[0], over, d);
    CoversBoth(cs[1], over, d);
    CoversBoth(cs[2], over, d);
    Halves(s, o, a, b);
    RestOf(s, a);
    RestOf(o, b);
    Ends(s);
  }

  lemma RestOf(s: int, a: int)
    requires s > 0
    ensures ((s - a) as real) / (s as real) == 1.0 - (a as real) / (s as real)
  {
    var z := s as real;
    var x, y := (a as real) / z, ((s - a) as real) / z;
    assert x * z == a as real && y * z == z - (a as real);
    assert (x + y) * z == x * z + y * z;
    BelowOf(x + y, 1.0, z);
    BelowOf(1.0, x + y, z);
  }

  lemma WithoutFirst(cs: seq<Candidate>)
    requires cs != []
    ensures Without(cs, 0) == cs[1..]
  {
  }

  lemma FirstIsBest(cs: seq<Candidate>, over: Size)
    requires cs != [] && !Settled(over) && forall i :: 0 <= i < |cs| ==> Covers(cs[i], over) <= Covers(cs[0], over)
    ensures Shed(cs, over) == [cs[0]] + Shed(cs[1..], Less(over, cs[0]))
  {
    hide Covers, Shed, Without;
    ShedStep(cs, over);
    WithoutFirst(cs);
  }

  /** Of two candidates neither of which settles a dimension, both are given back. */
  lemma BothTaken(cs: seq<Candidate>, over: Size, d: Dim)
    requires |cs| == 2 && Amount(cs[0], d) < Short(over, d) && Amount(cs[1], d) < Short(over, d)
    ensures |Shed(cs, over)| == 2
  {
    hide Shed, BestAmong, Covers;
    ShedStep(cs, over);
    var b := BestAmong(cs, over, |cs|);
    var rest, after := Without(cs, b), Less(over, cs[b]);
    ShedStep(rest, after);
    ShedNothing(Without(rest, BestAmong(rest, after, 1)), Less(after, rest[BestAmong(rest, after, 1)]));
  }

  /** All three of a decoy's candidates cost something and are given back, where the last two would do. */
  lemma DecoyIsTaken(over: Size, d: Dim, a: nat, b: nat)
    requires Balanced(over, d, a, b)
    ensures
      var cs := Decoy(over, d, a, b);
      AllCost(cs) && multiset(cs[1..]) <= multiset(cs) && Settles(cs[1..], over) && |Shed(cs, over)| == 3
  {
    hide Shed, Covers, Even, Settles;
    var cs := Decoy(over, d, a, b);
    DecoyCovers(over, d, a, b);
    FirstIsBest(cs, over);
    BothTaken(cs[1..], Less(over, cs[0]), d.Other());
    assert cs == [cs[0]] + cs[1..];
    DecoySettles(over, d, a, b);
  }

  lemma DecoySettles(over: Size, d: Dim, a: nat, b: nat)
    requires Balanced(over, d, a, b)
    ensures Settles(Decoy(over, d, a, b)[1..], over)
  {
    hide Sum, Even;
    var cs := Decoy(over, d, a, b);
    assert cs[1..] == [cs[1], cs[2]];
    TwoSum(cs[1], cs[2], CPU);
    TwoSum(cs[1], cs[2], Bytes);
  }

  /** Some decoy is balanced as soon as both deficits are at least two and the larger at least four. */
  lemma SomeDecoy(over: Size, d: Dim) returns (a: nat, b: nat)
    requires 2 <= Short(over, d) <= Short(over, d.Other()) && Short(over, d.Other()) >= 4
    ensures Balanced(over, d, a, b)
  {
    var s, o := Short(over, d), Short(over, d.Other());
    if s == o {
      a, b := 2, s - 2;
      assert 2 * s + (s - 2) * s == s * s;
    } else {
      a, b := 1, o * (s - 1) / s;
      ShareOf(s, o, b);
    }
  }

  lemma ShareOf(s: int, o: int, b: int)
    requires 2 <= s < o && o >= 4 && b == o * (s - 1) / s
    ensures o * s - s <= o + b * s <= o * s && 2 <= b <= o - 2
  {
    var whole := o * (s - 1);
    assert whole == o * s - o;
    assert whole == b * s + whole % s;
    assert whole == 4 * (s - 1) + (o - 4) * (s - 1) && (o - 4) * (s - 1) >= 0;
    Cancel(b, 1, s);
    assert (o - 1) * s == o * s - s;
    Cancel(o - 1, b, s);
  }

  lemma Cancel(x: int, y: int, s: int)
    requires s > 0 && x * s > y * s
    ensures x > y
  {
    if x <= y {
      AtLeast(y, x, s);
    }
  }

  lemma AtLeast(x: int, y: int, s: int)
    requires x >= y && s >= 0
    ensures x * s >= y * s
  {
  }

  /** Giving back takes the fewest candidates that settle the shortfall, whatever leases the candidates are. */
  ghost predicate AlwaysFewest(over: Size)
  {
    forall cs, t :: AllCost(cs) && multiset(t) <= multiset(cs) && Settles(t, over) ==> |t| >= |Shed(cs, over)|
  }

  /** It always takes the fewest exactly when one deficit is at most one or both are at most three. */
  lemma FewestExactlyWhen(over: Size)
    ensures AlwaysFewest(over) <==> over.vcpu <= 1 || over.memory <= 1 || (over.vcpu <= 3 && over.memory <= 3)
  {
    hide Shed, Settles;
    if over.vcpu <= 1 || over.memory <= 1 || (over.vcpu <= 3 && over.memory <= 3) {
      forall cs, t | AllCost(cs) && multiset(t) <= multiset(cs) && Settles(t, over) ensures |t| >= |Shed(cs, over)| {
        FewestForOver(cs, over, t);
      }
    } else {
      var d := if over.vcpu <= over.memory then CPU else Bytes;
      var a, b := SomeDecoy(over, d);
      DecoyIsTaken(over, d, a, b);
      var cs := Decoy(over, d, a, b);
      assert |cs[1..]| < |Shed(cs, over)|;
    }
  }

  lemma FewestForOver(cs: seq<Candidate>, over: Size, t: seq<Candidate>)
    requires over.vcpu <= 1 || over.memory <= 1 || (over.vcpu <= 3 && over.memory <= 3)
    requires AllCost(cs) && multiset(t) <= multiset(cs) && Settles(t, over)
    ensures |t| >= |Shed(cs, over)|
  {
    hide Shed, Sum;
    if over.memory <= 0 {
      FewestForOne(cs, over, CPU, t);
    } else if over.vcpu <= 0 {
      FewestForOne(cs, over, Bytes, t);
    } else if over.vcpu == 1 || over.memory == 1 {
      FewestForNearlyOne(cs, over, if over.vcpu == 1 then CPU else Bytes, t);
    } else {
      FewestForTwosAndThrees(cs, over, t);
    }
  }

  // ---- The code ----

  function ById(cs: seq<Candidate>): seq<Candidate>
  {
    StableSort(cs, (c: Candidate) => c.id)
  }

  /** What one host gives back: nothing while it is within its size. */
  function ShedAt(db: Ledger, name: Host, onNode: map<Host, seq<Candidate>>): seq<Candidate>
  {
    match NodeNamed(db.nodes, name)
    case None => []
    case Some(n) =>
      var u := Used(db.leases, OnHost(name));
      Shed(ById(if name in onNode then onNode[name] else []), Size(u.vcpu - n.vcpu, u.memory - n.memory))
  }

  function ShedFrom(db: Ledger, names: seq<Host>, onNode: map<Host, seq<Candidate>>): seq<Candidate>
  {
    if names == [] then []
    else ShedFrom(db, names[..|names| - 1], onNode) + ShedAt(db, names[|names| - 1], onNode)
  }

  // ---- What giving back means to a host ----

  predicate InIdOrder(cs: seq<Candidate>) { forall i, j :: 0 <= i < j < |cs| ==> cs[i].id <= cs[j].id }

  lemma WithoutInOrder(cs: seq<Candidate>, b: nat)
    requires InIdOrder(cs) && b < |cs|
    ensures InIdOrder(Without(cs, b))
  {
  }

  /** A comes no later than B: it settles more of what is short, or as much with no larger an id. */
  predicate NoLater(a: Candidate, b: Candidate, over: Size)
  {
    Covers(a, over) > Covers(b, over) || (Covers(a, over) == Covers(b, over) && a.id <= b.id)
  }

  /** Each candidate given back settles the most of what is then still short among those left, the least id on ties. */
  lemma {:induction false} ShedTakesBest(cs: seq<Candidate>, over: Size, k: nat)
    requires InIdOrder(cs) && k < |Shed(cs, over)|
    ensures
      var out := Shed(cs, over);
      forall c :: c in multiset(cs) - multiset(out[..k]) ==> NoLater(out[k], c, Left(over, out[..k]))
    decreases |cs|
  {
    hide Covers, Less, Without, Shed, Left;
    if cs == [] || Settled(over) {
      ShedNothing(cs, over);
    } else {
      ShedStep(cs, over);
      var b := BestAmong(cs, over, |cs|);
      var out, left, short := Shed(cs, over), Without(cs, b), Less(over, cs[b]);
      var rest := Shed(left, short);
      if k == 0 {
        assert out[..0] == [];
        LeftNothing(over);
        forall c | c in cs ensures NoLater(cs[b], c, over) {
          var i :| 0 <= i < |cs| && cs[i] == c;
        }
      } else {
        WithoutInOrder(cs, b);
        ShedTakesBest(left, short, k - 1);
        assert out[..k] == [cs[b]] + rest[..k - 1];
        LeftFirst(over, cs[b], rest[..k - 1]);
        assert multiset(out[..k]) == multiset{cs[b]} + multiset(rest[..k - 1]);
        assert multiset(cs) - multiset(out[..k]) == multiset(left) - multiset(rest[..k - 1]);
      }
    }
  }

  lemma SortedInIdOrder(cs: seq<Candidate>)
    ensures InIdOrder(ById(cs)) && multiset(ById(cs)) == multiset(cs)
  {
    SortAscends(cs, (c: Candidate) => c.id);
  }

  lemma {:induction false} LeftIsLess(over: Size, cs: seq<Candidate>)
    ensures Left(over, cs) == Size(over.vcpu - Sum(cs, CPU), over.memory - Sum(cs, Bytes))
  {
    if cs != [] {
      LeftIsLess(over, cs[..|cs| - 1]);
    }
  }

  /** What is charged to the host once some candidates are given back is within its size. */
  predicate HoldsWithout(n: Node, used: Usage, gone: seq<Candidate>)
  {
    used.vcpu - Sum(gone, CPU) <= n.vcpu && used.memory - Sum(gone, Bytes) <= n.memory
  }

  /** A host gives back only what it was offered to give: as long as what is charged to it does not fit its size,
      and no longer. */
  lemma ShedAtMeans(db: Ledger, name: Host, onNode: map<Host, seq<Candidate>>)
    requires NodeNamed(db.nodes, name).Some? && name in onNode
    ensures
      var n, used, out := NodeNamed(db.nodes, name).value, Used(db.leases, OnHost(name)), ShedAt(db, name, onNode);
      && multiset(out) <= multiset(onNode[name])
      && (forall k :: 0 <= k < |out| ==> !HoldsWithout(n, used, out[..k]))
      && (HoldsWithout(n, used, out) || |out| == |onNode[name]|)
  {
    hide Shed, NodeNamed, Used, ById, Sum;
    var n, u := NodeNamed(db.nodes, name).value, Used(db.leases, OnHost(name));
    var over, cs := Size(u.vcpu - n.vcpu, u.memory - n.memory), ById(onNode[name]);
    SortedInIdOrder(onNode[name]);
    assert |cs| == |multiset(cs)| == |onNode[name]|;
    ShedStopsWhenSettled(cs, over);
    var out := Shed(cs, over);
    LeftIsLess(over, out);
    forall k | 0 <= k < |out| ensures !HoldsWithout(n, u, out[..k]) {
      LeftIsLess(over, out[..k]);
    }
  }

  /** Takes from one host's candidates the best cover each time. */
  method ShedHost(candidates: seq<Candidate>, over: Size) returns (out: seq<Candidate>)
    ensures out == Shed(candidates, over)
  {
    hide Shed, Covers, Without;
    out := [];
    var cs, short := candidates, over;
    while cs != [] && (short.vcpu > 0 || short.memory > 0)
      invariant out + Shed(cs, short) == Shed(candidates, over)
      decreases |cs|
    {
      var best := 0;
      for i := 1 to |cs|
        invariant best < i && best == BestAmong(cs, short, i)
      {
        if Covers(cs[i], short) > Covers(cs[best], short) {
          best := i;
        }
      }
      ShedStep(cs, short);
      var c := cs[best];
      cs := Without(cs, best);
      out := out + [c];
      short := Size(short.vcpu - c.vcpu, short.memory - c.memory);
    }
    ShedNothing(cs, short);
  }

  method ShedNode(db: Ledger, name: Host, onNode: map<Host, seq<Candidate>>) returns (ok: bool, out: seq<Candidate>)
    requires name in onNode
    ensures ok == NodeNamed(db.nodes, name).Some? && out == ShedAt(db, name, onNode)
  {
    hide Shed, NodeNamed, Used, ById;
    var host := NodeNamed(db.nodes, name);
    if host.None? {
      return false, [];
    }
    var used := Used(db.leases, OnHost(name));
    var over := Size(used.vcpu - host.value.vcpu, used.memory - host.value.memory);
    if over.vcpu <= 0 && over.memory <= 0 {
      ShedNothing(ById(onNode[name]), over);
      return true, [];
    }
    ok := true;
    out := ShedHost(ById(onNode[name]), over);
  }

  /** Gives back, host by host, what each no longer holds; a host that cannot be read fails the whole call. */
  method ShedOvercommit(db: Ledger, names: seq<Host>, onNode: map<Host, seq<Candidate>>) returns (ok: bool, out: seq<Candidate>)
    requires forall name :: name in names ==> name in onNode
    ensures ok <==> forall i :: 0 <= i < |names| ==> NodeNamed(db.nodes, names[i]).Some?
    ensures ok ==> out == ShedFrom(db, names, onNode)
  {
    hide ShedAt, NodeNamed;
    out := [];
    for i := 0 to |names|
      invariant forall j :: 0 <= j < i ==> NodeNamed(db.nodes, names[j]).Some?
      invariant out == ShedFrom(db, names[..i], onNode)
    {
      assert names[..i + 1][..i] == names[..i];
      var found, more := ShedNode(db, names[i], onNode);
      if !found {
        return false, out;
      }
      out := out + more;
    }
    assert names[..|names|] == names;
    ok := true;
  }
}

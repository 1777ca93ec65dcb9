/** The parts of a job's life, in the order they happened. */
module JobPhases {
  import opened Placement
  import opened Sorting

  datatype JobPhase = JobPhase(name: string, at: string)

  /** The stamps a job's history keeps, in the order a lease lives them. */
  datatype JobRecord = JobRecord(
    boughtAt: string, assignedAt: string, launchedAt: string, registeredAt: string, startedAt: string,
    custodyAt: string, teardownAt: string, quarantinedAt: string, finishedAt: string)

  function Lifecycle(r: JobRecord): seq<JobPhase>
  {
    [JobPhase("bought", r.boughtAt), JobPhase("assigned", r.assignedAt), JobPhase("launched", r.launchedAt),
     JobPhase("registered", r.registeredAt), JobPhase("started", r.startedAt), JobPhase("custody", r.custodyAt),
     JobPhase("teardown", r.teardownAt), JobPhase("quarantined", r.quarantinedAt), JobPhase("finished", r.finishedAt)]
  }

  /** The phases a time was recorded for. */
  function Recorded(phases: seq<JobPhase>): seq<JobPhase>
  {
    if phases == [] then []
    else Recorded(phases[..|phases| - 1]) + if phases[|phases| - 1].at != "" then [phases[|phases| - 1]] else []
  }

  /** What a stamp's text parses to, where it does. */
  type Parser = string -> Option<int>

  predicate Parses(parse: Parser, p: JobPhase) { parse(p.at).Some? }

  function Instant(parse: Parser): JobPhase -> int
  {
    (p: JobPhase) => if parse(p.at).Some? then parse(p.at).value else 0
  }

  /** The phases whose stamps parse, left to right. */
  function Parsable(parse: Parser, phases: seq<JobPhase>): (out: seq<JobPhase>)
    ensures |out| <= |phases|
  {
    if phases == [] then []
    else Parsable(parse, phases[..|phases| - 1]) +
         if Parses(parse, phases[|phases| - 1]) then [phases[|phases| - 1]] else []
  }

  /** Where they stand. */
  function Places(parse: Parser, phases: seq<JobPhase>): (out: seq<nat>)
    ensures |out| == |Parsable(parse, phases)|
    ensures forall i :: 0 <= i < |out| ==> out[i] < |phases|
  {
    if phases == [] then []
    else Places(parse, phases[..|phases| - 1]) + if Parses(parse, phases[|phases| - 1]) then [|phases| - 1] else []
  }

  /** Each of the first `k` values put at its place. */
  function PutBack(phases: seq<JobPhase>, places: seq<nat>, values: seq<JobPhase>, k: nat): (out: seq<JobPhase>)
    requires k <= |places| == |values| && forall i :: 0 <= i < |places| ==> places[i] < |phases|
    ensures |out| == |phases|
  {
    if k == 0 then phases else PutBack(phases, places, values, k - 1)[places[k - 1] := values[k - 1]]
  }

  /** The list with its parsable elements replaced, left to right, by these. */
  function Weave(parse: Parser, phases: seq<JobPhase>, values: seq<JobPhase>): (out: seq<JobPhase>)
    requires |values| == |Parsable(parse, phases)|
    ensures |out| == |phases|
  {
    if phases == [] then []
    else
      var front, last := phases[..|phases| - 1], phases[|phases| - 1];
      if Parses(parse, last) then Weave(parse, front, values[..|values| - 1]) + [values[|values| - 1]]
      else Weave(parse, front, values) + [last]
  }

  function Ordered(parse: Parser, phases: seq<JobPhase>): (out: seq<JobPhase>)
    ensures |out| == |phases|
  {
    Weave(parse, phases, StableSort(Parsable(parse, phases), Instant(parse)))
  }

  lemma ParsableStep(parse: Parser, front: seq<JobPhase>, last: JobPhase)
    ensures Parsable(parse, front + [last]) == Parsable(parse, front) + if Parses(parse, last) then [last] else []
    ensures Places(parse, front + [last]) == Places(parse, front) + if Parses(parse, last) then [|front|] else []
  {
    assert (front + [last])[..|front|] == front;
  }

  lemma WeaveStep(parse: Parser, front: seq<JobPhase>, last: JobPhase, values: seq<JobPhase>, value: JobPhase)
    requires |values| == |Parsable(parse, front)|
    ensures Parses(parse, last) ==>
      && |values + [value]| == |Parsable(parse, front + [last])|
      && Weave(parse, front + [last], values + [value]) == Weave(parse, front, values) + [value]
    ensures !Parses(parse, last) ==>
      && |values| == |Parsable(parse, front + [last])|
      && Weave(parse, front + [last], values) == Weave(parse, front, values) + [last]
  {
    hide Parsable;
    ParsableStep(parse, front, last);
    assert (front + [last])[..|front|] == front && (values + [value])[..|values|] == values;
  }

  // ---- Writing each value back at its place is weaving ----

  lemma {:induction false} PutBackFront(phases: seq<JobPhase>, last: JobPhase, places: seq<nat>, values: seq<JobPhase>,
                                        more: seq<nat>, others: seq<JobPhase>, k: nat)
    requires k <= |places| == |values| && |more| == |others|
    requires forall i :: 0 <= i < |places| ==> places[i] < |phases|
    requires forall i :: 0 <= i < |more| ==> more[i] <= |phases|
    ensures PutBack(phases + [last], places + more, values + others, k) == PutBack(phases, places, values, k) + [last]
  {
    if k > 0 {
      PutBackFront(phases, last, places, values, more, others, k - 1);
    }
  }

  lemma {:induction false} PutBackIsWeave(parse: Parser, phases: seq<JobPhase>, values: seq<JobPhase>)
    requires |values| == |Parsable(parse, phases)|
    ensures PutBack(phases, Places(parse, phases), values, |values|) == Weave(parse, phases, values)
  {
    hide Parses, PutBack, Weave, Parsable, Places;
    if phases == [] {
      PutNothing(phases, Places(parse, phases), values);
    } else {
      var front, last := phases[..|phases| - 1], phases[|phases| - 1];
      var places := Places(parse, front);
      assert phases == front + [last];
      ParsableStep(parse, front, last);
      if Parses(parse, last) {
        var n := |values| - 1;
        PutBackIsWeave(parse, front, values[..n]);
        PutBackFront(front, last, places, values[..n], [|front|], [values[n]], n);
        WeaveStep(parse, front, last, values[..n], values[n]);
        assert values == values[..n] + [values[n]];
        PutOne(phases, places + [|front|], values, n + 1);
      } else {
        PutBackIsWeave(parse, front, values);
        PutBackFront(front, last, places, values, [], [], |values|);
        WeaveStep(parse, front, last, values, last);
        assert values + [] == values && places + [] == places;
      }
    }
  }

  lemma PutNothing(phases: seq<JobPhase>, places: seq<nat>, values: seq<JobPhase>)
    requires |places| == |values| && forall i :: 0 <= i < |places| ==> places[i] < |phases|
    ensures PutBack(phases, places, values, 0) == phases
  {
  }

  lemma PutOne(phases: seq<JobPhase>, places: seq<nat>, values: seq<JobPhase>, k: nat)
    requires 0 < k <= |places| == |values| && forall i :: 0 <= i < |places| ==> places[i] < |phases|
    ensures PutBack(phases, places, values, k) == PutBack(phases, places, values, k - 1)[places[k - 1] := values[k - 1]]
  {
  }

  // ---- What ordering does ----

  lemma {:induction false} ParsableOnly(parse: Parser, phases: seq<JobPhase>)
    ensures forall p :: p in Parsable(parse, phases) ==> Parses(parse, p)
  {
    if phases != [] {
      ParsableOnly(parse, phases[..|phases| - 1]);
    }
  }

  /** Weaving parsable values reads back as those values, and touches nothing else. */
  lemma {:induction false} WeaveReads(parse: Parser, phases: seq<JobPhase>, values: seq<JobPhase>)
    requires |values| == |Parsable(parse, phases)| && forall i :: 0 <= i < |values| ==> Parses(parse, values[i])
    ensures
      var out := Weave(parse, phases, values);
      && Parsable(parse, out) == values
      && (forall p :: 0 <= p < |phases| ==> (Parses(parse, phases[p]) <==> Parses(parse, out[p])))
      && (forall p :: 0 <= p < |phases| && !Parses(parse, phases[p]) ==> out[p] == phases[p])
  {
    hide Parses, Weave, Parsable;
    if phases == [] {
      ParsableNone(parse);
    } else {
      var front, last := phases[..|phases| - 1], phases[|phases| - 1];
      assert phases == front + [last];
      ParsableStep(parse, front, last);
      if Parses(parse, last) {
        var n := |values| - 1;
        assert values == values[..n] + [values[n]];
        WeaveReads(parse, front, values[..n]);
        WeaveStep(parse, front, last, values[..n], values[n]);
        ParsableStep(parse, Weave(parse, front, values[..n]), values[n]);
      } else {
        WeaveReads(parse, front, values);
        WeaveStep(parse, front, last, values, last);
        ParsableStep(parse, Weave(parse, front, values), last);
        assert values + [] == values;
      }
    }
  }

  lemma ParsableNone(parse: Parser)
    ensures Parsable(parse, []) == []
  {
  }

  /** Unparsable stamps keep their positions, and the parsable ones, read left to right, are in time order with
      the lifecycle's order kept on ties. */
  lemma OrderedIsRight(parse: Parser, phases: seq<JobPhase>)
    ensures
      var out := Ordered(parse, phases);
      && (forall p :: 0 <= p < |phases| && !Parses(parse, phases[p]) ==> out[p] == phases[p])
      && (forall p :: 0 <= p < |phases| ==> (Parses(parse, phases[p]) <==> Parses(parse, out[p])))
      && Ascending(Parsable(parse, out), Instant(parse))
      && (forall t :: Having(Parsable(parse, out), Instant(parse), t) == Having(Parsable(parse, phases), Instant(parse), t))
      && multiset(out) == multiset(phases)
  {
    hide StableSort, Parses, Parsable, Having, Weave, Instant, Unparsable;
    var key := Instant(parse);
    var parsable, out := Parsable(parse, phases), Ordered(parse, phases);
    var parsed := StableSort(parsable, key);
    ParsableOnly(parse, phases);
    SortKeepsMembers(parsable, key);
    forall i | 0 <= i < |parsed| ensures Parses(parse, parsed[i]) {
      assert parsed[i] in parsed;
    }
    WeaveReads(parse, phases, parsed);
    SortAscends(parsable, key);
    forall t ensures Having(parsed, key, t) == Having(parsable, key, t) {
      SortKeepsTies(parsable, key, t);
    }
    TwoKinds(parse, phases);
    TwoKinds(parse, out);
    SameUnparsable(parse, phases, out);
  }

  /** The unparsable ones, left to right. */
  function Unparsable(parse: Parser, phases: seq<JobPhase>): seq<JobPhase>
  {
    if phases == [] then []
    else Unparsable(parse, phases[..|phases| - 1]) +
         if Parses(parse, phases[|phases| - 1]) then [] else [phases[|phases| - 1]]
  }

  lemma {:induction false} TwoKinds(parse: Parser, phases: seq<JobPhase>)
    ensures multiset(phases) == multiset(Parsable(parse, phases)) + multiset(Unparsable(parse, phases))
  {
    if phases != [] {
      var k := |phases| - 1;
      assert phases == phases[..k] + [phases[k]];
      TwoKinds(parse, phases[..k]);
    }
  }

  lemma {:induction false} SameUnparsable(parse: Parser, a: seq<JobPhase>, b: seq<JobPhase>)
    requires |a| == |b| && forall p :: 0 <= p < |a| ==> (Parses(parse, a[p]) <==> Parses(parse, b[p]))
    requires forall p :: 0 <= p < |a| && !Parses(parse, a[p]) ==> b[p] == a[p]
    ensures Unparsable(parse, a) == Unparsable(parse, b)
  {
    if a != [] {
      SameUnparsable(parse, a[..|a| - 1], b[..|b| - 1]);
    }
  }

  // ---- What a job's phases say ----

  /** How far along a lease's life a phase is, and the stamp its record keeps for it. */
  function Stage(name: string): nat
  {
    if name == "bought" then 0 else if name == "assigned" then 1 else if name == "launched" then 2
    else if name == "registered" then 3 else if name == "started" then 4 else if name == "custody" then 5
    else if name == "teardown" then 6 else if name == "quarantined" then 7 else if name == "finished" then 8 else 9
  }

  function StampOf(r: JobRecord, name: string): string
  {
    match Stage(name)
    case 0 => r.boughtAt
    case 1 => r.assignedAt
    case 2 => r.launchedAt
    case 3 => r.registeredAt
    case 4 => r.startedAt
    case 5 => r.custodyAt
    case 6 => r.teardownAt
    case 7 => r.quarantinedAt
    case 8 => r.finishedAt
    case _ => ""
  }

  /** Each phase at most once, in the order a lease lives them. */
  predicate InStages(s: seq<JobPhase>)
  {
    forall i, j :: 0 <= i < j < |s| ==> Stage(s[i].name) < Stage(s[j].name)
  }

  lemma LifecycleStages(r: JobRecord)
    ensures InStages(Lifecycle(r))
    ensures forall p :: p in Lifecycle(r) <==> Stage(p.name) < 9 && p.at == StampOf(r, p.name)
  {
    var all := Lifecycle(r);
    assert forall i :: 0 <= i < 9 ==> Stage(all[i].name) == i && all[i].at == StampOf(r, all[i].name);
    forall p: JobPhase | Stage(p.name) < 9 && p.at == StampOf(r, p.name) ensures p in all {
      assert all[Stage(p.name)] == p;
    }
  }

  lemma {:induction false} RecordedKeeps(s: seq<JobPhase>)
    requires InStages(s)
    ensures InStages(Recorded(s)) && forall p :: p in Recorded(s) <==> p in s && p.at != ""
  {
    if s != [] {
      var front, last := s[..|s| - 1], s[|s| - 1];
      assert s == front + [last];
      RecordedKeeps(front);
      forall p | p in Recorded(front) ensures Stage(p.name) < Stage(last.name) {
        var i :| 0 <= i < |front| && front[i] == p;
      }
    }
  }

  lemma {:induction false} ParsableStages(parse: Parser, s: seq<JobPhase>)
    requires InStages(s)
    ensures InStages(Parsable(parse, s)) && forall p :: p in Parsable(parse, s) ==> p in s
  {
    if s != [] {
      var front, last := s[..|s| - 1], s[|s| - 1];
      assert s == front + [last];
      ParsableStages(parse, front);
      forall p | p in Parsable(parse, front) ensures Stage(p.name) < Stage(last.name) {
        var i :| 0 <= i < |front| && front[i] == p;
      }
    }
  }

  lemma {:induction false} HavingStages(s: seq<JobPhase>, key: JobPhase -> int, t: int)
    requires InStages(s)
    ensures InStages(Having(s, key, t)) && forall p :: p in Having(s, key, t) ==> p in s
  {
    if s != [] {
      var front, last := s[..|s| - 1], s[|s| - 1];
      assert s == front + [last];
      HavingStages(front, key, t);
      forall p | p in Having(front, key, t) ensures Stage(p.name) < Stage(last.name) {
        var i :| 0 <= i < |front| && front[i] == p;
      }
    }
  }

  /** The parsable phases of one instant, in the order they stand. */
  function AtInstant(parse: Parser, s: seq<JobPhase>, t: int): seq<JobPhase> { Having(Parsable(parse, s), Instant(parse), t) }

  predicate IsAt(parse: Parser, p: JobPhase, t: int) { Parses(parse, p) && Instant(parse)(p) == t }

  lemma AtInstantStep(parse: Parser, front: seq<JobPhase>, last: JobPhase, t: int)
    ensures AtInstant(parse, front + [last], t) == AtInstant(parse, front, t) + if IsAt(parse, last, t) then [last] else []
  {
    hide Having, Parsable, Instant;
    ParsableStep(parse, front, last);
    var tail := if Parses(parse, last) then [last] else [];
    HavingAppend(Parsable(parse, front), tail, Instant(parse), t);
    HavingOne(last, Instant(parse), t);
    assert Having<JobPhase>([], Instant(parse), t) == [] by { HavingNone(parse, t); }
  }

  lemma HavingNone(parse: Parser, t: int)
    ensures Having<JobPhase>([], Instant(parse), t) == []
  {
  }

  /** Two phases at one instant stand in the order their instant's phases do. */
  lemma {:induction false} TiesStand(parse: Parser, out: seq<JobPhase>, i: nat, j: nat, t: int)
    requires i < j < |out| && IsAt(parse, out[i], t) && IsAt(parse, out[j], t) && InStages(AtInstant(parse, out, t))
    ensures Stage(out[i].name) < Stage(out[j].name)
  {
    hide Stage, AtInstant, IsAt;
    var front, last := out[..|out| - 1], out[|out| - 1];
    assert out == front + [last];
    AtInstantStep(parse, front, last, t);
    var before, all := AtInstant(parse, front, t), AtInstant(parse, out, t);
    if j < |front| {
      assert before == all[..|before|];
      TiesStand(parse, front, i, j, t);
    } else {
      AtInstantHas(parse, front, i, t);
      var a :| 0 <= a < |before| && before[a] == out[i];
      assert all[a] == out[i] && all[|before|] == out[j];
    }
  }

  lemma {:induction false} AtInstantHas(parse: Parser, s: seq<JobPhase>, i: nat, t: int)
    requires i < |s| && IsAt(parse, s[i], t)
    ensures s[i] in AtInstant(parse, s, t)
  {
    hide AtInstant, IsAt;
    var front, last := s[..|s| - 1], s[|s| - 1];
    assert s == front + [last];
    AtInstantStep(parse, front, last, t);
    if i < |front| {
      AtInstantHas(parse, front, i, t);
    }
  }

  /** A job's phases are exactly the stamps its record keeps, each under its own name and once, and two whose stamps
      are one instant stand in the order a lease lives them. */
  lemma PhasesAreTheRecord(parse: Parser, r: JobRecord)
    ensures
      var out := Ordered(parse, Recorded(Lifecycle(r)));
      && (forall p :: p in out <==> p.at != "" && Stage(p.name) < 9 && p.at == StampOf(r, p.name))
      && (forall i, j :: 0 <= i < j < |out| ==> out[i].name != out[j].name)
      && (forall i, j :: 0 <= i < j < |out| && Parses(parse, out[i]) && Parses(parse, out[j]) && parse(out[i].at) == parse(out[j].at) ==>
            Stage(out[i].name) < Stage(out[j].name))
  {
    hide Ordered, Lifecycle, Recorded, Stage, StampOf, Parses, InStages;
    var phases := Recorded(Lifecycle(r));
    var out := Ordered(parse, phases);
    LifecycleStages(r);
    RecordedKeeps(Lifecycle(r));
    OrderedMembers(parse, phases);
    forall i, j | 0 <= i < j < |out| ensures out[i].name != out[j].name {
      NamedOnce(phases, out, i, j);
    }
    forall i, j | 0 <= i < j < |out| && Parses(parse, out[i]) && Parses(parse, out[j]) && parse(out[i].at) == parse(out[j].at)
      ensures Stage(out[i].name) < Stage(out[j].name)
    {
      TiesInStages(parse, phases, i, j);
    }
  }

  lemma OrderedMembers(parse: Parser, phases: seq<JobPhase>)
    ensures multiset(Ordered(parse, phases)) == multiset(phases)
    ensures forall p :: p in Ordered(parse, phases) <==> p in phases
  {
    hide Ordered, Parsable, Having, Parses;
    OrderedIsRight(parse, phases);
    forall p ensures p in Ordered(parse, phases) <==> p in phases {
      assert p in Ordered(parse, phases) <==> p in multiset(Ordered(parse, phases));
      assert p in phases <==> p in multiset(phases);
    }
  }

  lemma TiesInStages(parse: Parser, phases: seq<JobPhase>, i: nat, j: nat)
    requires InStages(phases) && i < j < |phases|
    requires
      var out := Ordered(parse, phases);
      Parses(parse, out[i]) && Parses(parse, out[j]) && parse(out[i].at) == parse(out[j].at)
    ensures Stage(Ordered(parse, phases)[i].name) < Stage(Ordered(parse, phases)[j].name)
  {
    hide Ordered, Parsable, Having, Stage, InStages;
    var out := Ordered(parse, phases);
    var t := parse(out[j].at).value;
    OrderedIsRight(parse, phases);
    ParsableStages(parse, phases);
    HavingStages(Parsable(parse, phases), Instant(parse), t);
    assert AtInstant(parse, out, t) == AtInstant(parse, phases, t);
    TiesStand(parse, out, i, j, t);
  }

  lemma NamedOnce(s: seq<JobPhase>, out: seq<JobPhase>, i: nat, j: nat)
    requires InStages(s) && multiset(s) == multiset(out) && i < j < |out|
    ensures out[i].name != out[j].name
  {
    hide Stage;
    if out[i].name == out[j].name {
      assert out[i] in multiset(out) && out[j] in multiset(out);
      var a :| 0 <= a < |s| && s[a] == out[i];
      var b :| 0 <= b < |s| && s[b] == out[j];
      assert a == b;
      assert out == out[..i] + [out[i]] + out[i + 1..j] + [out[j]] + out[j + 1..];
      assert multiset(out)[out[i]] >= 2;
      OnceOnly(s, a);
    }
  }

  lemma OnceOnly(s: seq<JobPhase>, a: nat)
    requires InStages(s) && a < |s|
    ensures multiset(s)[s[a]] == 1
  {
    hide Stage;
    assert s == s[..a] + [s[a]] + s[a + 1..];
    assert s[a] !in s[..a] && s[a] !in s[a + 1..];
  }

  // ---- The code ----

  method RecordedPhases(all: seq<JobPhase>) returns (out: seq<JobPhase>)
    ensures out == Recorded(all)
  {
    out := [];
    for i := 0 to |all|
      invariant out == Recorded(all[..i])
    {
      assert all[..i + 1][..i] == all[..i];
      if all[i].at != "" {
        out := out + [all[i]];
      }
    }
    assert all[..|all|] == all;
  }

  method ParsedPlaces(parse: Parser, phases: seq<JobPhase>) returns (places: seq<nat>, parsed: seq<JobPhase>)
    ensures places == Places(parse, phases) && parsed == Parsable(parse, phases)
  {
    places, parsed := [], [];
    for i := 0 to |phases|
      invariant places == Places(parse, phases[..i]) && parsed == Parsable(parse, phases[..i])
    {
      assert phases[..i + 1][..i] == phases[..i];
      if parse(phases[i].at).Some? {
        places := places + [i];
        parsed := parsed + [phases[i]];
      }
    }
    assert phases[..|phases|] == phases;
  }

  /** The recorded phases in the order they happened. */
  method Phases(parse: Parser, r: JobRecord) returns (out: seq<JobPhase>)
    ensures out == Ordered(parse, Recorded(Lifecycle(r)))
  {
    hide StableSort, Instant, Weave, Parsable, Places, Lifecycle, Recorded;
    out := RecordedPhases(Lifecycle(r));
    var places, parsed := ParsedPlaces(parse, out);
    parsed := StableSort(parsed, Instant(parse));
    ghost var was := out;
    for i := 0 to |places|
      invariant |out| == |was| && out == PutBack(was, places, parsed, i)
    {
      out := out[places[i] := parsed[i]];
    }
    PutBackIsWeave(parse, was, parsed);
  }
}

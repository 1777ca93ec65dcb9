/** What a rule has judged, the streak it counts and the notices it owes, over every run of judgements. */
module Alerts {
  import opened Placement

  datatype Outcome = Hit | Miss | Other | Unknown

  /** One rule's verdict on one job on one condition; the streak and the cooldown are counted by `key`. */
  datatype Judgement = Judgement(
    rule: string, lease: string, condition: string, key: string, outcome: Outcome,
    inARow: int, cooldown: nat, destinations: seq<string>)

  datatype Mark = Mark(rule: string, lease: string, condition: string)

  datatype Key = Key(rule: string, key: string)

  datatype Streak = Streak(count: nat, firedAt: Option<int>, cooldownUntil: Option<int>, updatedAt: int)

  /** What was decided, and when. */
  datatype Decided = Decided(outcome: Outcome, at: int)

  datatype Notice = Notice(rule: string, destination: string, lease: string, condition: string)

  datatype Book = Book(
    marks: map<Mark, Decided>, streaks: map<Key, Streak>, mutes: map<string, int>, notices: seq<Notice>)

  datatype Decision = Decision(recorded: bool, fired: bool, muted: bool, streak: nat)

  const NO_STREAK := Streak(0, None, None, 0)

  function MarkOf(j: Judgement): Mark { Mark(j.rule, j.lease, j.condition) }

  function KeyOf(j: Judgement): Key { Key(j.rule, j.key) }

  function StreakAt(b: Book, k: Key): Streak { if k in b.streaks then b.streaks[k] else NO_STREAK }

  predicate Muted(b: Book, rule: string, now: int) { rule in b.mutes && now < b.mutes[rule] }

  predicate Cooled(s: Streak, now: int) { s.cooldownUntil.None? || now >= s.cooldownUntil.value }

  predicate Recorded(b: Book, j: Judgement) { MarkOf(j) !in b.marks }

  predicate Counted(b: Book, j: Judgement) { Recorded(b, j) && (j.outcome.Hit? || j.outcome.Miss?) }

  /** A recorded hit that reached the rule's count, past its cooldown. */
  predicate Due(b: Book, j: Judgement, now: int)
  {
    Recorded(b, j) && j.outcome.Hit? && StreakAt(b, KeyOf(j)).count + 1 >= j.inARow && Cooled(StreakAt(b, KeyOf(j)), now)
  }

  predicate Fires(b: Book, j: Judgement, now: int) { Due(b, j, now) && !Muted(b, j.rule, now) }

  /** One notice for each destination, in order. */
  function NoticesOf(j: Judgement): (out: seq<Notice>)
    ensures |out| == |j.destinations|
    ensures forall i :: 0 <= i < |out| ==>
      out[i].destination == j.destinations[i] && out[i].rule == j.rule && out[i].lease == j.lease && out[i].condition == j.condition
  {
    seq(|j.destinations|, i requires 0 <= i < |j.destinations| => Notice(j.rule, j.destinations[i], j.lease, j.condition))
  }

  /** What recording a judgement leaves. */
  function Judged(b: Book, j: Judgement, now: int): Book
  {
    if !Recorded(b, j) then b
    else
      var marked := b.(marks := b.marks[MarkOf(j) := Decided(j.outcome, now)]);
      if !Counted(b, j) then marked
      else
        var s := StreakAt(b, KeyOf(j));
        var count := if j.outcome.Hit? then s.count + 1 else 0;
        var fired := Fires(b, j, now);
        var next := if fired then Streak(count, Some(now), Some(now + j.cooldown), now) else s.(count := count, updatedAt := now);
        marked.(streaks := b.streaks[KeyOf(j) := next], notices := b.notices + if fired then NoticesOf(j) else [])
  }

  /** A streak nobody has moved in a long while is forgotten, but never one whose cooldown still runs. */
  predicate Forgettable(s: Streak, streaksBefore: int, now: int)
  {
    s.updatedAt < streaksBefore && (s.cooldownUntil.None? || s.cooldownUntil.value < now)
  }

  /** What pruning leaves: younger judgements, streaks still moving or cooling down, and every notice still owed. */
  function Pruned(b: Book, before: int, streaksBefore: int, now: int): Book
  {
    b.(marks := map m | m in b.marks && b.marks[m].at >= before :: b.marks[m],
       streaks := map k | k in b.streaks && !Forgettable(b.streaks[k], streaksBefore, now) :: b.streaks[k])
  }

  /** The alert tables, changed one transaction at a time. */
  class AlertLedger {
    var marks: map<Mark, Decided>
    var streaks: map<Key, Streak>
    var mutes: map<string, int>
    var notices: seq<Notice>

    function Value(): Book
      reads this
    {
      Book(marks, streaks, mutes, notices)
    }

    /** Records one judgement once, moves the streak, and owes the notices if it fires. */
    method RecordAlertJudgement(j: Judgement, now: int) returns (decision: Decision)
      modifies this
      ensures Value() == Judged(old(Value()), j, now)
      ensures decision.recorded == Recorded(old(Value()), j) && decision.fired == Fires(old(Value()), j, now)
      ensures decision.muted == (Due(old(Value()), j, now) && Muted(old(Value()), j.rule, now))
      ensures Counted(old(Value()), j) ==> decision.streak == StreakAt(Value(), KeyOf(j)).count
    {
      decision := Decision(false, false, false, 0);
      if MarkOf(j) in marks {
        return;
      }
      ghost var was := Value();
      marks := marks[MarkOf(j) := Decided(j.outcome, now)];
      decision := decision.(recorded := true);
      if j.outcome != Hit && j.outcome != Miss {
        return;
      }
      var streak := if KeyOf(j) in streaks then streaks[KeyOf(j)] else NO_STREAK;
      var count, firedAt, until := 0, streak.firedAt, streak.cooldownUntil;
      if j.outcome == Hit {
        count := streak.count + 1;
        var muted := j.rule in mutes && now < mutes[j.rule];
        if count >= j.inARow && (streak.cooldownUntil.None? || now >= streak.cooldownUntil.value) {
          if muted {
            decision := decision.(muted := true);
          } else {
            decision := decision.(fired := true);
            firedAt, until := Some(now), Some(now + j.cooldown);
          }
        }
      }
      decision := decision.(streak := count);
      streaks := streaks[KeyOf(j) := Streak(count, firedAt, until, now)];
      if decision.fired {
        var start := notices;
        for i := 0 to |j.destinations|
          invariant marks == was.marks[MarkOf(j) := Decided(j.outcome, now)] && mutes == was.mutes
          invariant streaks == was.streaks[KeyOf(j) := Streak(count, firedAt, until, now)]
          invariant notices == start + NoticesOf(j)[..i]
        {
          notices := notices + [Notice(j.rule, j.destinations[i], j.lease, j.condition)];
        }
      }
    }

    /** Forgets old judgements, and old streaks whose cooldown has ended. */
    method PruneAlerts(before: int, streaksBefore: int, now: int)
      modifies this
      ensures Value() == Pruned(old(Value()), before, streaksBefore, now)
    {
      marks := map m | m in marks && !(marks[m].at < before) :: marks[m];
      streaks := map k | k in streaks &&
        (streaks[k].updatedAt >= streaksBefore || (streaks[k].cooldownUntil.Some? && streaks[k].cooldownUntil.value >= now)) :: streaks[k];
    }
  }

  // ---- Runs ----

  datatype Event =
    | Judge(judgement: Judgement)
    | Mute(rule: string, until: int)
    | Unmute(rule: string)
    | Prune(before: int, streaksBefore: int)

  datatype Tick = Tick(now: int, event: Event)

  function Apply(b: Book, t: Tick): Book
  {
    match t.event
    case Judge(j) => Judged(b, j, t.now)
    case Mute(rule, until) => b.(mutes := b.mutes[rule := until])
    case Unmute(rule) => b.(mutes := b.mutes - {rule})
    case Prune(before, streaksBefore) => Pruned(b, before, streaksBefore, t.now)
  }

  function At(b: Book, run: seq<Tick>, k: nat): Book
    requires k <= |run|
  {
    if k == 0 then b else Apply(At(b, run, k - 1), run[k - 1])
  }

  /** At this point of the run a judgement of this key is counted, with this outcome. */
  predicate CountedAt(b: Book, run: seq<Tick>, m: nat, key: Key, o: Outcome)
    requires m < |run|
  {
    run[m].event.Judge? && KeyOf(run[m].event.judgement) == key && run[m].event.judgement.outcome == o &&
    Counted(At(b, run, m), run[m].event.judgement)
  }

  predicate FiredAt(b: Book, run: seq<Tick>, m: nat, key: Key)
    requires m < |run|
  {
    run[m].event.Judge? && KeyOf(run[m].event.judgement) == key && Fires(At(b, run, m), run[m].event.judgement, run[m].now)
  }

  /** At this point of the run a prune forgets what had been decided. */
  predicate MarkForgottenAt(b: Book, run: seq<Tick>, m: nat, mark: Mark)
    requires m < |run|
  {
    run[m].event.Prune? && mark in At(b, run, m).marks && At(b, run, m).marks[mark].at < run[m].event.before
  }

  predicate StreakForgottenAt(b: Book, run: seq<Tick>, m: nat, key: Key)
    requires m < |run|
  {
    run[m].event.Prune? && key in At(b, run, m).streaks &&
    Forgettable(At(b, run, m).streaks[key], run[m].event.streaksBefore, run[m].now)
  }

  lemma {:induction false} MarksStay(b: Book, run: seq<Tick>, i: nat, k: nat, mark: Mark)
    requires i <= k <= |run| && mark in At(b, run, i).marks
    ensures mark in At(b, run, k).marks || exists m :: i <= m < k && MarkForgottenAt(b, run, m, mark)
    decreases k - i
  {
    if i < k {
      MarksStay(b, run, i, k - 1, mark);
      if mark in At(b, run, k - 1).marks && mark !in At(b, run, k).marks {
        assert MarkForgottenAt(b, run, k - 1, mark);
      }
    }
  }

  /** Each rule, lease and condition is counted at most once, until a prune forgets that it was. */
  lemma CountedOnce(b: Book, run: seq<Tick>, i: nat, k: nat)
    requires i < k < |run| && run[i].event.Judge? && run[k].event.Judge?
    requires MarkOf(run[i].event.judgement) == MarkOf(run[k].event.judgement)
    requires Recorded(At(b, run, k), run[k].event.judgement)
    ensures exists m :: i < m < k && MarkForgottenAt(b, run, m, MarkOf(run[i].event.judgement))
  {
    MarksStay(b, run, i + 1, k, MarkOf(run[i].event.judgement));
  }

  /** How many hits of a key were counted in a stretch of the run. */
  function Hits(b: Book, run: seq<Tick>, from: nat, k: nat, key: Key): nat
    requires from <= k <= |run|
    decreases k
  {
    if k == from then 0 else Hits(b, run, from, k - 1, key) + if CountedAt(b, run, k - 1, key, Hit) then 1 else 0
  }

  lemma CountMoves(b: Book, run: seq<Tick>, m: nat, key: Key)
    requires m < |run|
    ensures
      var t, was, now := run[m], StreakAt(At(b, run, m), key), StreakAt(At(b, run, m + 1), key);
      if t.event.Judge? && KeyOf(t.event.judgement) == key && Counted(At(b, run, m), t.event.judgement)
      then now.count == (if t.event.judgement.outcome.Hit? then was.count + 1 else 0)
      else if StreakForgottenAt(b, run, m, key) then now.count == 0
      else now == was
  {
  }

  /** The key's streak begins anew here: a miss was counted, or a prune forgot it. */
  predicate BeginsAnew(b: Book, run: seq<Tick>, m: nat, key: Key)
    requires m < |run|
  {
    CountedAt(b, run, m, key, Miss) || StreakForgottenAt(b, run, m, key)
  }

  /** A streak is the number of counted hits of its key since the last counted miss, or since it was forgotten. */
  lemma {:induction false} StreakCountsHits(b: Book, run: seq<Tick>, k: nat, key: Key) returns (from: nat)
    requires k <= |run| && b.streaks == map[]
    ensures from <= k && (from == 0 || BeginsAnew(b, run, from - 1, key))
    ensures forall m :: from <= m < k ==> !BeginsAnew(b, run, m, key)
    ensures StreakAt(At(b, run, k), key).count == Hits(b, run, from, k, key)
  {
    hide Judged, Counted, StreakAt, Pruned, Forgettable;
    if k == 0 {
      NoStreakYet(b, key);
      return 0;
    }
    CountMoves(b, run, k - 1, key);
    if BeginsAnew(b, run, k - 1, key) {
      return k;
    }
    from := StreakCountsHits(b, run, k - 1, key);
    CountedIsEither(b, run, k - 1, key);
  }

  lemma NoStreakYet(b: Book, key: Key)
    requires b.streaks == map[]
    ensures StreakAt(b, key).count == 0
  {
  }

  lemma CountedIsEither(b: Book, run: seq<Tick>, m: nat, key: Key)
    requires m < |run|
    ensures run[m].event.Judge? && KeyOf(run[m].event.judgement) == key && Counted(At(b, run, m), run[m].event.judgement) ==>
      CountedAt(b, run, m, key, Hit) || CountedAt(b, run, m, key, Miss)
  {
  }

  lemma CooldownMoves(b: Book, t: Tick, key: Key)
    ensures
      var was, now := StreakAt(b, key), StreakAt(Apply(b, t), key);
      if t.event.Judge? && KeyOf(t.event.judgement) == key && Fires(b, t.event.judgement, t.now)
      then now.cooldownUntil == Some(t.now + t.event.judgement.cooldown) && Cooled(was, t.now)
      else now.cooldownUntil == was.cooldownUntil || (t.event.Prune? && (was.cooldownUntil.Some? ==> was.cooldownUntil.value < t.now))
  {
  }

  /** The clock the ledger stamps with never runs backwards. */
  predicate ClockRuns(run: seq<Tick>)
  {
    forall a, b :: 0 <= a < b < |run| ==> run[a].now <= run[b].now
  }

  predicate NothingPruned(run: seq<Tick>)
  {
    forall m :: 0 <= m < |run| ==> !run[m].event.Prune?
  }

  /** A cooldown that ends no earlier than this. */
  predicate CoolsUntil(s: Streak, until: int) { s.cooldownUntil.Some? && s.cooldownUntil.value >= until }

  /** After a firing the key cools down as long as that firing asked, whatever is pruned meanwhile. */
  lemma {:induction false} CooldownStands(b: Book, run: seq<Tick>, i: nat, k: nat, key: Key)
    requires i < k <= |run| && FiredAt(b, run, i, key) && (ClockRuns(run) || NothingPruned(run))
    ensures
      var until := run[i].now + run[i].event.judgement.cooldown;
      CoolsUntil(StreakAt(At(b, run, k), key), until) || (ClockRuns(run) && until < run[k - 1].now)
    decreases k
  {
    hide Fires, StreakAt, Judged, Pruned;
    CooldownMoves(At(b, run, k - 1), run[k - 1], key);
    if i < k - 1 {
      CooldownStands(b, run, i, k - 1, key);
    }
  }

  /** Two firings of one key are never closer than the first one's cooldown, whatever is pruned between them. */
  lemma FiringsKeepApart(b: Book, run: seq<Tick>, i: nat, k: nat, key: Key)
    requires i < k < |run| && FiredAt(b, run, i, key) && FiredAt(b, run, k, key)
    requires ClockRuns(run) || NothingPruned(run)
    ensures run[k].now >= run[i].now + run[i].event.judgement.cooldown
  {
    hide StreakAt, Muted;
    CooldownStands(b, run, i, k, key);
  }

  /** Every firing's notices, in order. */
  function Owed(b: Book, run: seq<Tick>, k: nat): seq<Notice>
    requires k <= |run|
  {
    if k == 0 then []
    else
      Owed(b, run, k - 1) +
      if run[k - 1].event.Judge? && Fires(At(b, run, k - 1), run[k - 1].event.judgement, run[k - 1].now)
      then NoticesOf(run[k - 1].event.judgement) else []
  }

  /** Notices are owed for firings, for every one of them and for nothing else. */
  lemma {:induction false} NoticesAreForFirings(b: Book, run: seq<Tick>, k: nat)
    requires k <= |run|
    ensures At(b, run, k).notices == b.notices + Owed(b, run, k)
  {
    hide NoticesOf;
    if k > 0 {
      NoticesAreForFirings(b, run, k - 1);
      NoticesMove(At(b, run, k - 1), run[k - 1]);
    }
  }

  lemma NoticesMove(b: Book, t: Tick)
    ensures Apply(b, t).notices ==
      b.notices + if t.event.Judge? && Fires(b, t.event.judgement, t.now) then NoticesOf(t.event.judgement) else []
  {
  }
}

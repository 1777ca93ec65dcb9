/** When a rule fires, from the history of judgements, mutes and prunes alone. */
module AlertHistory {
  import Placement
  import opened Alerts

  const EMPTY := Book(map[], map[], map[], [])

  /** When this rule was first asked about this job and condition, as far as is still remembered. */
  function Asked(run: seq<Tick>, k: nat, mark: Mark): Placement.Option<int>
    requires k <= |run|
  {
    if k == 0 then Placement.None
    else
      var before, t := Asked(run, k - 1, mark), run[k - 1];
      match t.event
      case Judge(j) =>
        if before.None? && j.rule == mark.rule && j.lease == mark.lease && j.condition == mark.condition then Placement.Some(t.now) else before
      case Prune(oldest, _) => if before.Some? && before.value < oldest then Placement.None else before
      case _ => before
  }

  lemma {:induction false} MarkIsHistory(run: seq<Tick>, k: nat, mark: Mark)
    requires k <= |run|
    ensures
      var marks := At(EMPTY, run, k).marks;
      (mark in marks <==> Asked(run, k, mark).Some?) && (mark in marks ==> marks[mark].at == Asked(run, k, mark).value)
  {
    hide Fires;
    if k > 0 {
      MarkIsHistory(run, k - 1, mark);
    }
  }

  /** Here a first answer of this key says so. */
  predicate Answered(run: seq<Tick>, m: nat, key: Key, o: Outcome)
    requires m < |run|
  {
    && run[m].event.Judge?
    && var j := run[m].event.judgement;
       j.rule == key.rule && j.key == key.key && j.outcome == o && Asked(run, m, Mark(j.rule, j.lease, j.condition)).None?
  }

  lemma CountedIsAnswered(run: seq<Tick>, m: nat, key: Key, o: Outcome)
    requires m < |run| && (o == Hit || o == Miss)
    ensures CountedAt(EMPTY, run, m, key, o) <==> Answered(run, m, key, o)
  {
    hide At, Asked;
    if run[m].event.Judge? {
      MarkIsHistory(run, m, MarkOf(run[m].event.judgement));
    }
  }

  /** A prune here forgets the key: its answers are all older than the prune keeps, and no firing of it still cools. */
  predicate Forgets(run: seq<Tick>, m: nat, key: Key)
    requires m < |run|
  {
    && run[m].event.Prune?
    && (forall i :: 0 <= i < m && (Answered(run, i, key, Hit) || Answered(run, i, key, Miss)) ==> run[i].now < run[m].event.streaksBefore)
    && (forall i :: 0 <= i < m && FiredAt(EMPTY, run, i, key) ==> run[i].now + run[i].event.judgement.cooldown < run[m].now)
  }

  /** How many hits of a key a stretch of the run holds. */
  function HitsIn(run: seq<Tick>, from: nat, k: nat, key: Key): nat
    requires from <= k <= |run|
    decreases k
  {
    if k == from then 0 else HitsIn(run, from, k - 1, key) + if Answered(run, k - 1, key, Hit) then 1 else 0
  }

  // ---- What a stored streak remembers ----

  lemma StreakMoves(b: Book, t: Tick, key: Key)
    ensures
      var after := Apply(b, t);
      if t.event.Judge? && KeyOf(t.event.judgement) == key && Counted(b, t.event.judgement)
      then key in after.streaks && after.streaks[key].updatedAt == t.now
      else key in after.streaks ==> key in b.streaks && after.streaks[key] == b.streaks[key]
  {
  }

  /** A stored streak was last moved by the key's last answer, and its cooldown is that of a firing. */
  lemma {:induction false} StreakRemembers(run: seq<Tick>, k: nat, key: Key) returns (last: nat, fired: nat)
    requires k <= |run| && key in At(EMPTY, run, k).streaks
    ensures
      var s := At(EMPTY, run, k).streaks[key];
      && last < k && (CountedAt(EMPTY, run, last, key, Hit) || CountedAt(EMPTY, run, last, key, Miss)) && s.updatedAt == run[last].now
      && (forall m :: last < m < k ==> !CountedAt(EMPTY, run, m, key, Hit) && !CountedAt(EMPTY, run, m, key, Miss))
      && (s.cooldownUntil.Some? ==>
            fired < k && FiredAt(EMPTY, run, fired, key) && s.cooldownUntil.value == run[fired].now + run[fired].event.judgement.cooldown)
  {
    hide Judged, Pruned, Counted, Fires;
    var before, t := At(EMPTY, run, k - 1), run[k - 1];
    StreakMoves(before, t, key);
    CooldownMoves(before, t, key);
    CountedIsEither(EMPTY, run, k - 1, key);
    if key in before.streaks {
      last, fired := StreakRemembers(run, k - 1, key);
    } else {
      last, fired := 0, 0;
    }
    if CountedAt(EMPTY, run, k - 1, key, Hit) || CountedAt(EMPTY, run, k - 1, key, Miss) {
      last := k - 1;
    }
    if FiredAt(EMPTY, run, k - 1, key) {
      fired := k - 1;
    }
  }

  /** A streak that is not stored has counted nothing. */
  lemma NotStored(b: Book, key: Key)
    requires key !in b.streaks
    ensures StreakAt(b, key).count == 0 && StreakAt(b, key).cooldownUntil.None?
  {
  }

  lemma ForgottenIsForgets(run: seq<Tick>, m: nat, key: Key)
    requires m < |run| && ClockRuns(run) && key in At(EMPTY, run, m).streaks
    ensures StreakForgottenAt(EMPTY, run, m, key) <==> Forgets(run, m, key)
  {
    hide At, Answered, CountedAt, Fires;
    var s := At(EMPTY, run, m).streaks[key];
    var last, fired := StreakRemembers(run, m, key);
    CountedIsAnswered(run, last, key, Hit);
    CountedIsAnswered(run, last, key, Miss);
    if StreakForgottenAt(EMPTY, run, m, key) {
      forall i | 0 <= i < m && (Answered(run, i, key, Hit) || Answered(run, i, key, Miss)) ensures run[i].now < run[m].event.streaksBefore {
        CountedIsAnswered(run, i, key, Hit);
        CountedIsAnswered(run, i, key, Miss);
        assert i <= last;
      }
      forall i | 0 <= i < m && FiredAt(EMPTY, run, i, key) ensures run[i].now + run[i].event.judgement.cooldown < run[m].now {
        CooldownStands(EMPTY, run, i, m, key);
      }
    }
  }

  /** A streak is the number of first answers that were hits since the last that was a miss, or since it was forgotten. */
  lemma {:induction false} StreakIsHits(run: seq<Tick>, k: nat, key: Key) returns (from: nat)
    requires k <= |run| && ClockRuns(run)
    ensures from <= k && (from == 0 || Answered(run, from - 1, key, Miss) || Forgets(run, from - 1, key))
    ensures forall m :: from <= m < k ==> !Answered(run, m, key, Miss) && !Forgets(run, m, key)
    ensures StreakAt(At(EMPTY, run, k), key).count == HitsIn(run, from, k, key)
  {
    hide Judged, Pruned, Counted, StreakAt, Answered, Forgets, Forgettable;
    if k == 0 {
      NotStored(EMPTY, key);
      return 0;
    }
    var before := At(EMPTY, run, k - 1);
    CountMoves(EMPTY, run, k - 1, key);
    CountedIsAnswered(run, k - 1, key, Hit);
    CountedIsAnswered(run, k - 1, key, Miss);
    CountedIsEither(EMPTY, run, k - 1, key);
    if key in before.streaks {
      ForgottenIsForgets(run, k - 1, key);
    } else {
      NotStored(before, key);
    }
    if Answered(run, k - 1, key, Miss) || Forgets(run, k - 1, key) {
      AnsweredIsJudged(run, k - 1, key);
      return k;
    }
    from := StreakIsHits(run, k - 1, key);
  }

  lemma AnsweredIsJudged(run: seq<Tick>, m: nat, key: Key)
    requires m < |run|
    ensures Forgets(run, m, key) ==> run[m].event.Prune?
  {
  }

  /** The rule was muted, until later than now, and nothing has said otherwise since. */
  predicate MutedBy(run: seq<Tick>, k: nat, rule: string, now: int)
    requires k <= |run|
  {
    exists i :: 0 <= i < k && run[i].event.Mute? && run[i].event.rule == rule && now < run[i].event.until &&
                forall m :: i < m < k ==> !((run[m].event.Mute? || run[m].event.Unmute?) && run[m].event.rule == rule)
  }

  lemma {:induction false} MuteIsHistory(run: seq<Tick>, k: nat, rule: string, now: int)
    requires k <= |run|
    ensures Muted(At(EMPTY, run, k), rule, now) <==> MutedBy(run, k, rule, now)
  {
    hide Judged, Pruned;
    if k > 0 {
      MuteIsHistory(run, k - 1, rule, now);
      MutesMove(At(EMPTY, run, k - 1), run[k - 1]);
    }
  }

  lemma MutesMove(b: Book, t: Tick)
    ensures Apply(b, t).mutes ==
      match t.event
      case Mute(rule, until) => b.mutes[rule := until]
      case Unmute(rule) => b.mutes - {rule}
      case _ => b.mutes
  {
  }

  /** A rule fires exactly on a hit it was not asked about before, that with the hits since the key's last miss or
      forgetting makes as many in a row as the rule wants, once every earlier firing's cooldown has passed, and not
      while the rule is muted. */
  lemma FiresExactlyWhen(run: seq<Tick>, k: nat) returns (from: nat)
    requires k < |run| && ClockRuns(run) && run[k].event.Judge?
    ensures
      var j := run[k].event.judgement;
      var key := Key(j.rule, j.key);
      && from <= k && (from == 0 || Answered(run, from - 1, key, Miss) || Forgets(run, from - 1, key))
      && (forall m :: from <= m < k ==> !Answered(run, m, key, Miss) && !Forgets(run, m, key))
      && (FiredAt(EMPTY, run, k, key) <==>
            && j.outcome == Hit && Asked(run, k, Mark(j.rule, j.lease, j.condition)).None?
            && HitsIn(run, from, k, key) + 1 >= j.inARow
            && (forall i :: 0 <= i < k && FiredAt(EMPTY, run, i, key) ==> run[k].now >= run[i].now + run[i].event.judgement.cooldown)
            && !MutedBy(run, k, j.rule, run[k].now))
  {
    hide At, Answered, Forgets, MutedBy, Asked, Muted, HitsIn;
    var j, now, b := run[k].event.judgement, run[k].now, At(EMPTY, run, k);
    var key := Key(j.rule, j.key);
    from := StreakIsHits(run, k, key);
    MarkIsHistory(run, k, MarkOf(j));
    MuteIsHistory(run, k, j.rule, now);
    CooledExactlyWhen(run, k, key);
  }

  lemma CooledExactlyWhen(run: seq<Tick>, k: nat, key: Key)
    requires k < |run| && ClockRuns(run)
    ensures Cooled(StreakAt(At(EMPTY, run, k), key), run[k].now) <==>
      forall i :: 0 <= i < k && FiredAt(EMPTY, run, i, key) ==> run[k].now >= run[i].now + run[i].event.judgement.cooldown
  {
    hide At, Fires;
    var b := At(EMPTY, run, k);
    if key in b.streaks {
      var last, fired := StreakRemembers(run, k, key);
    }
    forall i | 0 <= i < k && FiredAt(EMPTY, run, i, key)
      ensures Cooled(StreakAt(b, key), run[k].now) ==> run[k].now >= run[i].now + run[i].event.judgement.cooldown
    {
      CooldownStands(EMPTY, run, i, k, key);
    }
  }
}

/** Renewing many leases in a statement per batch, against renewing each alone. */
module Heartbeats {
  import opened Placement
  import opened Catalogue
  import opened LedgerState
  import opened Leases
  import opened LeaseStore
  import opened Packing

  const HEARTBEAT_BATCH := 256

  /** Row `i` of the ledger has id `names[i]`: the primary key. */
  ghost predicate Keyed(db: Ledger, names: seq<string>)
  {
    |names| == |db.leases| && Distinct(names)
  }

  function RowNamed(names: seq<string>, id: string): (i: nat)
    ensures i <= |names|
    ensures i < |names| ==> names[i] == id
    ensures i == |names| ==> id !in names
  {
    if names == [] || names[0] == id then 0 else 1 + RowNamed(names[1..], id)
  }

  lemma RowNamedIs(names: seq<string>, i: nat)
    requires Distinct(names) && i < |names|
    ensures RowNamed(names, names[i]) == i
  {
  }

  predicate HasNul(id: string) { '\0' in id }

  /** What a single heartbeat answers and leaves: an id that could not have been minted is not asked about. */
  function Beat(cfg: Config, names: seq<string>, db: Ledger, r: Ref, now: int): Settled
  {
    if HasNul(r.id) then Settled(NotFound, db)
    else Called(cfg, db, RowNamed(names, r.id), Heartbeat(r.epoch), now)
  }

  datatype Beats = Beats(answers: seq<Answer>, db: Ledger)

  /** Renewing each reference alone, in order, each at its own time. */
  function OneByOne(cfg: Config, names: seq<string>, db: Ledger, refs: seq<Ref>, times: seq<int>): (b: Beats)
    requires |times| == |refs|
    ensures |b.answers| == |refs|
  {
    if refs == [] then Beats([], db)
    else
      var k := |refs| - 1;
      var prev := OneByOne(cfg, names, db, refs[..k], times[..k]);
      var one := Beat(cfg, names, prev.db, refs[k], times[k]);
      Beats(prev.answers + [one.answer], one.db)
  }

  // ---- A set of renewals ----

  /** A row a reference renews: at that epoch, open, and not asked to be released. */
  predicate Renews(names: seq<string>, l: Lease, i: nat, r: Ref)
    requires i < |names|
  {
    names[i] == r.id && l.epoch == r.epoch && Open(l) && !l.forceRelease && !HasNul(r.id)
  }

  predicate RenewedBySome(names: seq<string>, l: Lease, i: nat, refs: seq<Ref>)
    requires i < |names|
  {
    exists k :: 0 <= k < |refs| && Renews(names, l, i, refs[k])
  }

  /** Every row some reference renews, renewed. */
  function RenewedRows(names: seq<string>, leases: seq<Lease>, refs: seq<Ref>, expiresAt: int): (out: seq<Lease>)
    requires |names| == |leases|
    ensures |out| == |leases|
    ensures forall i :: 0 <= i < |leases| ==>
      out[i] == if RenewedBySome(names, leases[i], i, refs) then leases[i].(expiresAt := expiresAt) else leases[i]
  {
    seq(|leases|, i requires 0 <= i < |leases| =>
      if RenewedBySome(names, leases[i], i, refs) then leases[i].(expiresAt := expiresAt) else leases[i])
  }

  function RenewedAll(names: seq<string>, db: Ledger, refs: seq<Ref>, expiresAt: int): Ledger
    requires |names| == |db.leases|
  {
    db.(leases := RenewedRows(names, db.leases, refs, expiresAt))
  }

  /** What a heartbeat of a reference answers, from what renewals never change. */
  function AnswerTo(names: seq<string>, db: Ledger, r: Ref): Answer
    requires |names| == |db.leases|
  {
    if HasNul(r.id) then NotFound
    else
      var i := RowNamed(names, r.id);
      if i == |names| then NotFound
      else if db.leases[i].epoch != r.epoch then Fenced
      else if !Open(db.leases[i]) then NotFound
      else if db.leases[i].forceRelease then ReleaseRequested
      else OK
  }

  /** A heartbeat after some renewals answers as it would have before them, and adds itself to them. */
  lemma BeatAfter(cfg: Config, names: seq<string>, db: Ledger, done: seq<Ref>, r: Ref, now: int)
    requires Keyed(db, names)
    ensures
      var x := now + cfg.leaseTTL;
      Beat(cfg, names, RenewedAll(names, db, done, x), r, now) ==
        Settled(AnswerTo(names, db, r), RenewedAll(names, db, done + [r], x))
  {
    hide RowNamed;
    var x, i := now + cfg.leaseTTL, RowNamed(names, r.id);
    var was := RenewedAll(names, db, done, x);
    var one := Beat(cfg, names, was, r, now);
    BeatIs(cfg, names, was, r, now);
    var want := RenewedAll(names, db, done + [r], x).leases;
    forall j: nat | j < |db.leases| ensures one.db.leases[j] == want[j] {
      SomeOrLast(names, db.leases[j], j, done, r);
      if j != i {
        RowNamedIs(names, j);
      }
    }
    assert one.db.leases == want;
  }

  lemma SomeOrLast(names: seq<string>, l: Lease, i: nat, done: seq<Ref>, r: Ref)
    requires i < |names|
    ensures RenewedBySome(names, l, i, done + [r]) <==> RenewedBySome(names, l, i, done) || Renews(names, l, i, r)
  {
    hide Renews;
    if RenewedBySome(names, l, i, done) {
      var k :| 0 <= k < |done| && Renews(names, l, i, done[k]);
      assert (done + [r])[k] == done[k];
    }
    assert (done + [r])[|done|] == r;
  }

  /** A single heartbeat, spelled out. */
  lemma BeatIs(cfg: Config, names: seq<string>, db: Ledger, r: Ref, now: int)
    requires |names| == |db.leases|
    ensures
      var i, one := RowNamed(names, r.id), Beat(cfg, names, db, r, now);
      && one.answer == AnswerTo(names, db, r)
      && one.db == (if one.answer == OK then db.(leases := db.leases[i := db.leases[i].(expiresAt := now + cfg.leaseTTL)]) else db)
      && (one.answer == OK <==> i < |names| && Renews(names, db.leases[i], i, r))
  {
    hide RowNamed, Called, HasNul;
    HeartbeatCall(cfg, db, RowNamed(names, r.id), r.epoch, now);
  }

  lemma HeartbeatCall(cfg: Config, db: Ledger, id: nat, epoch: int, now: int)
    ensures Called(cfg, db, id, Heartbeat(epoch), now) ==
      if Load(db, id, epoch) != OK then Settled(Load(db, id, epoch), db)
      else if db.leases[id].forceRelease then Settled(ReleaseRequested, db)
      else Settled(OK, db.(leases := db.leases[id := db.leases[id].(expiresAt := now + cfg.leaseTTL)]))
  {
    hide AssignEffect, BindEffect, AdvanceEffect, MarkFailureEffect, ReleaseEffect, ReleaseFailedEffect, ForceTerminateEffect,
      ForceReleaseEffect, ResolveEffect, ResolveFailedEffect, SettleCompletionEffect, Archived, Amended, LoadAny;
  }

  lemma NothingRenewed(names: seq<string>, db: Ledger, expiresAt: int)
    requires |names| == |db.leases|
    ensures RenewedAll(names, db, [], expiresAt) == db
  {
    assert RenewedRows(names, db.leases, [], expiresAt) == db.leases;
  }

  /** One at a time at one instant: every answer is the one the first ledger would give, and the ledger is
      the set of renewals. */
  lemma {:induction false} OneByOneIsASet(cfg: Config, names: seq<string>, db: Ledger, refs: seq<Ref>, now: int, times: seq<int>)
    requires Keyed(db, names) && |times| == |refs| && forall i :: 0 <= i < |times| ==> times[i] == now
    ensures
      var b := OneByOne(cfg, names, db, refs, times);
      && b.db == RenewedAll(names, db, refs, now + cfg.leaseTTL)
      && forall i :: 0 <= i < |refs| ==> b.answers[i] == AnswerTo(names, db, refs[i])
  {
    hide Beat, RenewedAll, AnswerTo;
    if refs == [] {
      NothingRenewed(names, db, now + cfg.leaseTTL);
    } else {
      var k := |refs| - 1;
      OneByOneIsASet(cfg, names, db, refs[..k], now, times[..k]);
      BeatAfter(cfg, names, db, refs[..k], refs[k], now);
      assert refs == refs[..k] + [refs[k]];
    }
  }

  lemma {:induction false} OneByOneSplits(cfg: Config, names: seq<string>, db: Ledger, a: seq<Ref>, b: seq<Ref>, s: seq<int>, t: seq<int>)
    requires |a| == |s| && |b| == |t|
    ensures
      var first := OneByOne(cfg, names, db, a, s);
      var rest := OneByOne(cfg, names, first.db, b, t);
      OneByOne(cfg, names, db, a + b, s + t) == Beats(first.answers + rest.answers, rest.db)
  {
    hide Beat;
    if b == [] {
      assert a + b == a && s + t == s;
    } else {
      var k := |b| - 1;
      assert (a + b)[..|a| + k] == a + b[..k] && (s + t)[..|a| + k] == s + t[..k];
      OneByOneSplits(cfg, names, db, a, b[..k], s, t[..k]);
    }
  }

  // ---- The code ----

  /** Packs the references the statement can carry, saying which those were. */
  method PackLeaseRefs(refs: seq<Ref>) returns (packed: string, count: nat, packable: seq<bool>)
    ensures packed == Packed(Kept(refs)) && count == |Kept(refs)|
    ensures |packable| == |refs| && forall i :: 0 <= i < |refs| ==> packable[i] == Packable(refs[i])
  {
    hide Record, Packable;
    packed, count, packable := "", 0, [];
    for i := 0 to |refs|
      invariant packed == Packed(Kept(refs[..i])) && count == |Kept(refs[..i])|
      invariant |packable| == i && forall j :: 0 <= j < i ==> packable[j] == Packable(refs[j])
    {
      assert refs[..i + 1][..i] == refs[..i];
      if Packable(refs[i]) {
        ghost var kept := Kept(refs[..i]);
        assert Kept(refs[..i + 1]) == kept + [refs[i]];
        assert (kept + [refs[i]])[..|kept|] == kept;
        packed := packed + Record(refs[i]);
        count := count + 1;
        packable := packable + [true];
      } else {
        assert Kept(refs[..i + 1]) == Kept(refs[..i]);
        packable := packable + [false];
      }
    }
    assert refs[..|refs|] == refs;
  }

  /** The batch statement: renews every open row named at its epoch, and answers which it renewed. */
  method HeartbeatLeases(store: Store, names: seq<string>, packed: string, expiresAt: int) returns (renewed: set<Ref>)
    requires |names| == |store.db.leases|
    requires forall r :: r in Unpack(packed) ==> !HasNul(r.id)
    modifies store
    ensures store.db == RenewedAll(names, old(store.db), Unpack(packed), expiresAt)
    ensures forall r :: r in renewed <==>
      exists i :: 0 <= i < |names| && r == Ref(names[i], old(store.db).leases[i].epoch) && RenewedBySome(names, old(store.db).leases[i], i, Unpack(packed))
  {
    hide Unpack, HasNul;
    var refs := Unpack(packed);
    renewed := {};
    ghost var db := store.db;
    for i := 0 to |store.db.leases|
      invariant |store.db.leases| == |db.leases| && store.db == db.(leases := store.db.leases)
      invariant forall j :: 0 <= j < i ==> store.db.leases[j] == RenewedRows(names, db.leases, refs, expiresAt)[j]
      invariant forall j :: i <= j < |db.leases| ==> store.db.leases[j] == db.leases[j]
      invariant forall r :: r in renewed <==>
        exists j :: 0 <= j < i && r == Ref(names[j], db.leases[j].epoch) && RenewedBySome(names, db.leases[j], j, refs)
    {
      var l := store.db.leases[i];
      var found := Open(l) && !l.forceRelease && Ref(names[i], l.epoch) in refs;
      FoundIsRenewed(names, l, i, refs);
      if found {
        store.db := store.db.(leases := store.db.leases[i := l.(expiresAt := expiresAt)]);
        renewed := renewed + {Ref(names[i], l.epoch)};
      }
    }
    assert store.db.leases == RenewedRows(names, db.leases, refs, expiresAt);
  }

  lemma FoundIsRenewed(names: seq<string>, l: Lease, i: nat, refs: seq<Ref>)
    requires i < |names| && forall r :: r in refs ==> !HasNul(r.id)
    ensures RenewedBySome(names, l, i, refs) <==> Open(l) && !l.forceRelease && Ref(names[i], l.epoch) in refs
  {
    hide HasNul;
    if Ref(names[i], l.epoch) in refs && Open(l) && !l.forceRelease {
      var k :| 0 <= k < |refs| && refs[k] == Ref(names[i], l.epoch);
      assert Renews(names, l, i, refs[k]);
    }
  }

  lemma PlainHasNoNul(r: Ref)
    requires Packable(r)
    ensures !HasNul(r.id)
  {
  }

  lemma OrderIsNothing(names: seq<string>, db: Ledger, a: seq<Ref>, b: seq<Ref>, expiresAt: int)
    requires |names| == |db.leases| && forall r :: r in a <==> r in b
    ensures RenewedAll(names, db, a, expiresAt) == RenewedAll(names, db, b, expiresAt)
  {
    hide Renews;
    forall i | 0 <= i < |names| ensures RenewedBySome(names, db.leases[i], i, a) == RenewedBySome(names, db.leases[i], i, b) {
      SomeByMembers(names, db.leases[i], i, a, b);
      SomeByMembers(names, db.leases[i], i, b, a);
    }
    assert RenewedRows(names, db.leases, a, expiresAt) == RenewedRows(names, db.leases, b, expiresAt);
  }

  lemma SomeByMembers(names: seq<string>, l: Lease, i: nat, a: seq<Ref>, b: seq<Ref>)
    requires i < |names| && forall r :: r in a ==> r in b
    ensures RenewedBySome(names, l, i, a) ==> RenewedBySome(names, l, i, b)
  {
    hide Renews;
    if RenewedBySome(names, l, i, a) {
      var k :| 0 <= k < |a| && Renews(names, l, i, a[k]);
      assert a[k] in a;
      var j :| 0 <= j < |b| && b[j] == a[k];
    }
  }

  /** A renewed reference would have been answered so alone. */
  lemma RenewedAnswersOK(names: seq<string>, db: Ledger, r: Ref, i: nat, refs: seq<Ref>)
    requires Keyed(db, names) && i < |names| && r == Ref(names[i], db.leases[i].epoch) && RenewedBySome(names, db.leases[i], i, refs)
    ensures AnswerTo(names, db, r) == OK
  {
    RowNamedIs(names, i);
  }

  /** One batch: the statement first, then the one-lease renewal of whatever it did not renew. */
  method HeartbeatManyTx(cfg: Config, store: Store, names: seq<string>, refs: seq<Ref>, now: int) returns (answers: seq<Answer>)
    requires Keyed(store.db, names) && forall r :: r in refs ==> IsInt64(r.epoch)
    modifies store
    ensures |answers| == |refs| && forall i :: 0 <= i < |refs| ==> answers[i] == AnswerTo(names, old(store.db), refs[i])
    ensures store.db == RenewedAll(names, old(store.db), refs, now + cfg.leaseTTL)
  {
    hide RenewedAll, AnswerTo, Beat, Unpack, Packed, Kept, Packable, RenewedBySome, HasNul;
    ghost var db, kept := store.db, Kept(refs);
    var packed, count, packable := PackLeaseRefs(refs);
    PackingReadsBack(refs);
    KeptIsWhatPacks(refs);
    var renewed: set<Ref> := {};
    if count > 0 {
      forall r | r in Unpack(packed) ensures !HasNul(r.id) {
        PlainHasNoNul(r);
      }
      renewed := HeartbeatLeases(store, names, packed, now + cfg.leaseTTL);
    } else {
      NothingRenewed(names, db, now + cfg.leaseTTL);
    }
    answers := [];
    ghost var done := kept;
    for i := 0 to |refs|
      invariant store.db == RenewedAll(names, db, done, now + cfg.leaseTTL)
      invariant forall r :: r in done <==> r in kept || r in refs[..i]
      invariant |answers| == i && forall j :: 0 <= j < i ==> answers[j] == AnswerTo(names, db, refs[j])
    {
      assert refs[..i + 1] == refs[..i] + [refs[i]];
      if packable[i] && refs[i] in renewed {
        ghost var row: nat :| row < |names| && refs[i] == Ref(names[row], db.leases[row].epoch) && RenewedBySome(names, db.leases[row], row, kept);
        RenewedAnswersOK(names, db, refs[i], row, kept);
        answers := answers + [OK];
      } else {
        BeatAfter(cfg, names, db, done, refs[i], now);
        var answer := BeatOne(cfg, store, names, refs[i], now);
        answers := answers + [answer];
        done := done + [refs[i]];
      }
    }
    assert refs[..|refs|] == refs;
    OrderIsNothing(names, db, done, refs, now + cfg.leaseTTL);
  }

  lemma {:induction false} KeptIsWhatPacks(refs: seq<Ref>)
    ensures forall r :: r in Kept(refs) <==> r in refs && Packable(r)
  {
    hide Packable;
    if refs != [] {
      var k := |refs| - 1;
      assert refs == refs[..k] + [refs[k]];
      KeptIsWhatPacks(refs[..k]);
    }
  }

  /** A single heartbeat. */
  method BeatOne(cfg: Config, store: Store, names: seq<string>, r: Ref, now: int) returns (answer: Answer)
    modifies store
    ensures Settled(answer, store.db) == Beat(cfg, names, old(store.db), r, now)
  {
    if HasNul(r.id) {
      return NotFound;
    }
    answer := HeartbeatLease(cfg, store, RowNamed(names, r.id), r.epoch, now);
  }

  /** When each reference is renewed: its batch's one instant. */
  function TimesOf(n: nat, clocks: seq<int>): (times: seq<int>)
    requires |clocks| * HEARTBEAT_BATCH >= n
    ensures |times| == n
    ensures forall i :: 0 <= i < n ==> times[i] == clocks[i / HEARTBEAT_BATCH]
  {
    seq(n, i requires 0 <= i < n => clocks[i / HEARTBEAT_BATCH])
  }

  /** Renews every reference, a batch to a transaction: each answer and the ledger left are exactly those of
      one heartbeat per reference, in order, whatever the list repeats or cannot pack. */
  method HeartbeatMany(cfg: Config, store: Store, names: seq<string>, refs: seq<Ref>, clocks: seq<int>) returns (answers: seq<Answer>)
    requires Keyed(store.db, names) && |clocks| * HEARTBEAT_BATCH >= |refs|
    requires forall r :: r in refs ==> IsInt64(r.epoch)
    modifies store
    ensures Beats(answers, store.db) == OneByOne(cfg, names, old(store.db), refs, TimesOf(|refs|, clocks))
  {
    hide OneByOne, AnswerTo;
    ghost var db, times := store.db, TimesOf(|refs|, clocks);
    answers := [];
    var start, batch := 0, 0;
    NoBeats(cfg, names, db);
    while start < |refs|
      invariant start <= |refs| && batch * HEARTBEAT_BATCH >= start && (start < |refs| ==> start == batch * HEARTBEAT_BATCH)
      invariant |store.db.leases| == |names|
      invariant Beats(answers, store.db) == OneByOne(cfg, names, db, refs[..start], times[..start])
      decreases |refs| - start
    {
      var end := Min(start + HEARTBEAT_BATCH, |refs|);
      ghost var was := Beats(answers, store.db);
      var part := HeartbeatManyTx(cfg, store, names, refs[start..end], clocks[batch]);
      answers := answers + part;
      BatchIsOneByOne(cfg, names, db, refs, times, start, end, clocks[batch], was, part);
      start, batch := end, batch + 1;
    }
    assert refs[..start] == refs && times[..start] == times;
  }

  lemma NoBeats(cfg: Config, names: seq<string>, db: Ledger)
    ensures OneByOne(cfg, names, db, [], []) == Beats([], db)
  {
  }

  lemma BatchIsOneByOne(cfg: Config, names: seq<string>, db: Ledger, refs: seq<Ref>, times: seq<int>, start: nat, end: nat, now: int,
                        was: Beats, part: seq<Answer>)
    requires |times| == |refs| && start <= end <= |refs| && forall i :: start <= i < end ==> times[i] == now
    requires was == OneByOne(cfg, names, db, refs[..start], times[..start]) && Keyed(was.db, names)
    requires |part| == end - start && forall i :: 0 <= i < end - start ==> part[i] == AnswerTo(names, was.db, refs[start + i])
    ensures Beats(was.answers + part, RenewedAll(names, was.db, refs[start..end], now + cfg.leaseTTL)) ==
      OneByOne(cfg, names, db, refs[..end], times[..end])
  {
    hide OneByOne, RenewedAll, AnswerTo;
    assert refs[..end] == refs[..start] + refs[start..end] && times[..end] == times[..start] + times[start..end];
    OneByOneSplits(cfg, names, db, refs[..start], refs[start..end], times[..start], times[start..end]);
    OneByOneIsASet(cfg, names, was.db, refs[start..end], now, times[start..end]);
    assert OneByOne(cfg, names, was.db, refs[start..end], times[start..end]).answers == part;
  }
}

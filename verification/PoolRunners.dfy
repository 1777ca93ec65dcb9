/** Pool members: one GitHub registration backed by one lease, its job, and its two-sided settlement. */
module PoolRunners {
  import opened Placement

  datatype Status = Idle | Busy | Retiring | Retired

  /** The job GitHub gave a member; all zero where none is known. */
  datatype Job = Job(request: int, run: int, id: string)

  const NO_JOB := Job(0, 0, "")

  datatype Member = Member(
    tier: string, launchRequest: int, runner: int, name: string, status: Status, job: Job,
    identity: string, acknowledged: bool, target: string)

  /** Members by the lease that backs them. */
  type Table = map<string, Member>

  /** What a caller says about a member. */
  datatype Claim = Claim(lease: string, tier: string, launchRequest: int, runner: int, name: string, target: string)

  datatype Call =
    | Register(claim: Claim)
    | Start(lease: string, tier: string, runner: int, name: string, job: Job, identity: string)
    | Preserve(claim: Claim)
    | RetireRecovered(claim: Claim)
    | Reinstate(lease: string)
    | Retire(lease: string)
    | Settle(tier: string, request: int)
    | Acknowledge(tier: string, request: int)
    | Forget(lease: string)

  predicate Complete(c: Claim) { c.lease != "" && c.tier != "" && c.launchRequest != 0 && c.name != "" && c.runner >= 0 }

  predicate WellFormed(call: Call)
  {
    match call
    case Register(c) => Complete(c)
    case Start(lease, tier, runner, name, job, _) =>
      lease != "" && tier != "" && runner > 0 && name != "" && job.request != 0 && job.run >= 0 && job.id != ""
    case Preserve(c) => Complete(c) && c.runner > 0
    case RetireRecovered(c) => Complete(c)
    case _ => true
  }

  function Lower(c: char): char { if 'A' <= c <= 'Z' then c + ('a' - 'A') else c }

  predicate SameFold(a: string, b: string) { |a| == |b| && forall i :: 0 <= i < |a| ==> Lower(a[i]) == Lower(b[i]) }

  /** Owners agree unless both are recorded and differ. */
  predicate SameTarget(a: string, b: string) { a == "" || b == "" || SameFold(a, b) }

  predicate IsThis(m: Member, c: Claim)
  {
    && m.tier == c.tier && m.launchRequest == c.launchRequest && m.name == c.name
    && (m.runner == 0 || c.runner == 0 || m.runner == c.runner) && SameTarget(m.target, c.target)
  }

  function Filled(m: Member, target: string): Member { if m.target == "" then m.(target := target) else m }

  function NewMember(c: Claim, status: Status): Member
  {
    Member(c.tier, c.launchRequest, c.runner, c.name, status, NO_JOB, "", false, c.target)
  }

  // ---- What each call does to a member that is there ----

  function Started(m: Member, tier: string, runner: int, name: string, job: Job, identity: string): Member
  {
    if m.tier != tier || m.name != name || (m.runner != 0 && m.runner != runner) then m
    else
      match m.status
      case Retiring => m
      case Retired => m
      case Busy =>
        if m.job == NO_JOB then m.(runner := if m.runner == 0 then runner else m.runner, job := job, identity := identity)
        else if m.job == job && m.identity == "" then m.(identity := identity)
        else m
      case Idle => m.(runner := runner, status := Busy, job := job, identity := identity)
  }

  function Preserved(m: Member, c: Claim): Member
  {
    if !IsThis(m, c) || m.status.Retiring? || m.status.Retired? then m
    else
      var filled := Filled(m, c.target);
      if m.status.Busy? then filled else filled.(runner := c.runner, status := Busy)
  }

  /** An authoritative binding wins: only an idle member or an unbound reservation is claimed. */
  function RetiredAsRecovered(m: Member, c: Claim): Member
  {
    if !IsThis(m, c) then m
    else
      var filled := Filled(m, c.target);
      if (m.status.Busy? && m.job != NO_JOB) || m.status.Retiring? || m.status.Retired? then filled
      else filled.(status := Retiring)
  }

  function Reinstated(m: Member): Member
  {
    if m.status.Retiring? && m.job == NO_JOB then m.(status := Busy) else m
  }

  function Claimed(m: Member): Member
  {
    if m.status.Idle? || m.status.Busy? then m.(status := Retiring) else m
  }

  // ---- The table ----

  predicate Serves(m: Member, tier: string, request: int) { m.tier == tier && m.launchRequest == request }

  /** The keys the schema keeps unique besides the lease. */
  predicate Unclaimed(table: Table, c: Claim)
  {
    forall lease :: lease in table ==> table[lease].name != c.name && !Serves(table[lease], c.tier, c.launchRequest)
  }

  function Inserted(table: Table, c: Claim, status: Status): Table
  {
    if Unclaimed(table, c) then table[c.lease := NewMember(c, status)] else table
  }

  /** What completing and acknowledging do to a member: the second of the two deletes it. */
  function SettledRow(m: Member): Option<Member> { if m.acknowledged then None else Some(m.(status := Retired)) }

  function AcknowledgedRow(m: Member): Option<Member> { if m.status.Retired? then None else Some(m.(acknowledged := true)) }

  function Put(table: Table, lease: string, m: Option<Member>): Table
  {
    if m.Some? then table[lease := m.value] else table - {lease}
  }

  /** Whether a call reaches a member, and what it leaves of it. */
  predicate Reaches(call: Call, lease: string, m: Member)
  {
    match call
    case Register(c) => c.lease == lease
    case Start(l, _, _, _, _, _) => l == lease
    case Preserve(c) => c.lease == lease
    case RetireRecovered(c) => c.lease == lease
    case Reinstate(l) => l == lease
    case Retire(l) => l == lease
    case Settle(tier, request) => Serves(m, tier, request)
    case Acknowledge(tier, request) => Serves(m, tier, request)
    case Forget(l) => l == lease
  }

  function RowAfter(m: Member, call: Call): Option<Member>
  {
    if !WellFormed(call) then Some(m)
    else
      match call
      case Register(c) => Some(if IsThis(m, c) then Filled(m, c.target) else m)
      case Start(_, tier, runner, name, job, identity) => Some(Started(m, tier, runner, name, job, identity))
      case Preserve(c) => Some(Preserved(m, c))
      case RetireRecovered(c) => Some(RetiredAsRecovered(m, c))
      case Reinstate(_) => Some(Reinstated(m))
      case Retire(_) => Some(Claimed(m))
      case Settle(_, _) => SettledRow(m)
      case Acknowledge(_, _) => AcknowledgedRow(m)
      case Forget(_) => None
  }

  function InsertedBy(table: Table, call: Call): Table
  {
    if !WellFormed(call) then table
    else
      match call
      case Register(c) => Inserted(table, c, Idle)
      case Preserve(c) => Inserted(table, c, Busy)
      case RetireRecovered(c) => Inserted(table, c, Retiring)
      case _ => table
  }

  /** One call, as a transaction over the table. */
  ghost function Apply(table: Table, call: Call): Table
  {
    if lease :| lease in table && Reaches(call, lease, table[lease])
    then Put(table, lease, RowAfter(table[lease], call))
    else InsertedBy(table, call)
  }

  // ---- What each call answers ----

  /** `Taken` is the schema refusing a second member of a name or a launch request. */
  datatype Reply = Did | Unregistered | Conflicting | Incomplete | Taken

  function InsertReply(table: Table, c: Claim): Reply { if Unclaimed(table, c) then Did else Taken }

  /** A start is refused unless this runner is free for the job, or has it already. */
  function StartReply(m: Member, tier: string, runner: int, name: string, job: Job): Reply
  {
    if m.tier != tier || m.name != name || (m.runner != 0 && m.runner != runner) then Conflicting
    else if m.status.Idle? || (m.status.Busy? && m.job == NO_JOB) || m.job == job then Did
    else Conflicting
  }

  function ReplyTo(table: Table, call: Call): Reply
  {
    if !WellFormed(call) then Incomplete
    else
      match call
      case Register(c) =>
        if c.lease !in table then InsertReply(table, c) else if IsThis(table[c.lease], c) then Did else Conflicting
      case Start(lease, tier, runner, name, job, _) =>
        if lease !in table then Unregistered else StartReply(table[lease], tier, runner, name, job)
      case Preserve(c) =>
        if c.lease !in table then InsertReply(table, c)
        else if IsThis(table[c.lease], c) && !table[c.lease].status.Retiring? && !table[c.lease].status.Retired? then Did
        else Conflicting
      case RetireRecovered(c) =>
        if c.lease !in table then InsertReply(table, c) else if IsThis(table[c.lease], c) then Did else Conflicting
      case Reinstate(lease) =>
        if lease !in table then Unregistered
        else if table[lease].status.Retiring? && table[lease].job == NO_JOB then Did else Conflicting
      case Retire(lease) => if lease !in table then Unregistered else Did
      case _ => Did
  }

  /** A refused call changes nothing, and a start that is not refused leaves the member busy with that job, or
      already on its way out with it. */
  lemma RefusalsChangeNothing(table: Table, call: Call)
    requires LeaseOf(call).Some? && !call.Forget?
    ensures ReplyTo(table, call) != Did ==> Apply(table, call) == table
    ensures call.Start? && ReplyTo(table, call) == Did ==> call.lease in Apply(table, call) && Apply(table, call)[call.lease].job == call.job
  {
    hide SameFold;
    NamedCall(table, call);
    Unchanged(table, LeaseOf(call).value);
  }

  // ---- What an accepted call says ----

  predicate Bound(m: Member) { m.job.request != 0 || m.job.run != 0 || m.job.id != "" }

  /** The claim can be this member: the same keys, no other runner, no other owner. */
  predicate MayBe(m: Member, c: Claim)
  {
    && m.tier == c.tier && m.launchRequest == c.launchRequest && m.name == c.name
    && !(m.runner != 0 && c.runner != 0 && m.runner != c.runner)
    && !(m.target != "" && c.target != "" && !SameFold(m.target, c.target))
  }

  /** Nobody else in the table has the claim's name, or its launch request in its tier. */
  predicate IsNew(table: Table, c: Claim)
  {
    forall lease :: lease in table ==> table[lease].name != c.name && !(table[lease].tier == c.tier && table[lease].launchRequest == c.launchRequest)
  }

  /** The member a claim is journaled as. */
  predicate JournaledAs(m: Member, c: Claim, status: Status)
  {
    && m.tier == c.tier && m.launchRequest == c.launchRequest && m.runner == c.runner && m.name == c.name && m.target == c.target
    && m.status == status && !Bound(m) && m.identity == "" && !m.acknowledged
  }

  /** Nothing but one member differs. */
  predicate Others(a: Table, b: Table, lease: string) { a - {lease} == b - {lease} }

  /** A member with its owner filled in where it was unknown. */
  function OwnerFilled(m: Member, target: string): Member { m.(target := if m.target == "" then target else m.target) }

  /** A registration is accepted when it is complete and new, or about the member that is there; it journals the member
      idle and unbound, or fills in its owner. */
  lemma RegisterMeans(table: Table, c: Claim)
    ensures
      var after := Apply(table, Register(c));
      && (ReplyTo(table, Register(c)) == Did <==> Complete(c) && if c.lease in table then MayBe(table[c.lease], c) else IsNew(table, c))
      && (ReplyTo(table, Register(c)) == Did ==>
            && c.lease in after && Others(table, after, c.lease)
            && if c.lease in table then after[c.lease] == OwnerFilled(table[c.lease], c.target) else JournaledAs(after[c.lease], c, Idle))
  {
    hide SameFold;
    NamedCall(table, Register(c));
  }

  /** A busy registration found again is journaled busy, whatever it was, unless it was on its way out. */
  lemma PreserveMeans(table: Table, c: Claim)
    ensures
      var after := Apply(table, Preserve(c));
      && (ReplyTo(table, Preserve(c)) == Did <==>
            Complete(c) && c.runner > 0 &&
            if c.lease in table then MayBe(table[c.lease], c) && table[c.lease].status in {Idle, Busy} else IsNew(table, c))
      && (ReplyTo(table, Preserve(c)) == Did ==>
            && c.lease in after && Others(table, after, c.lease)
            && if c.lease !in table then JournaledAs(after[c.lease], c, Busy)
               else
                 var m := OwnerFilled(table[c.lease], c.target);
                 after[c.lease] == if m.status == Busy then m else m.(status := Busy, runner := c.runner))
  {
    hide SameFold;
    NamedCall(table, Preserve(c));
  }

  /** A recovered registration is claimed for teardown unless it is bound to a job or on its way out already. */
  lemma RetireRecoveredMeans(table: Table, c: Claim)
    ensures
      var after := Apply(table, RetireRecovered(c));
      && (ReplyTo(table, RetireRecovered(c)) == Did <==> Complete(c) && if c.lease in table then MayBe(table[c.lease], c) else IsNew(table, c))
      && (ReplyTo(table, RetireRecovered(c)) == Did ==>
            && c.lease in after && Others(table, after, c.lease)
            && if c.lease !in table then JournaledAs(after[c.lease], c, Retiring)
               else
                 var m := OwnerFilled(table[c.lease], c.target);
                 after[c.lease] == if (m.status == Busy && !Bound(m)) || m.status == Idle then m.(status := Retiring) else m)
  {
    hide SameFold;
    NamedCall(table, RetireRecovered(c));
  }

  /** A claim is undone exactly for an unbound member claimed for teardown, and it is then busy. */
  lemma ReinstateMeans(table: Table, lease: string)
    ensures
      var after := Apply(table, Reinstate(lease));
      && (ReplyTo(table, Reinstate(lease)) == Did <==> lease in table && table[lease].status == Retiring && !Bound(table[lease]))
      && (ReplyTo(table, Reinstate(lease)) == Did ==> after == table[lease := table[lease].(status := Busy)])
  {
    NamedCall(table, Reinstate(lease));
  }

  /** Any member there is may be claimed for teardown; one on its way out already stays as it is. */
  lemma RetireMeans(table: Table, lease: string)
    ensures
      var after := Apply(table, Retire(lease));
      && (ReplyTo(table, Retire(lease)) == Did <==> lease in table)
      && (lease in table ==>
            after == table[lease := table[lease].(status := if table[lease].status in {Idle, Busy} then Retiring else table[lease].status)])
  {
    NamedCall(table, Retire(lease));
  }

  /** A start is accepted for the runner the member has, or for any where it has none known, when the member is free for
      the job or has it already; a member not on its way out is then busy, on that runner, with that job. */
  lemma StartMeans(table: Table, lease: string, tier: string, runner: int, name: string, job: Job, identity: string)
    ensures
      var call := Start(lease, tier, runner, name, job, identity);
      var after := Apply(table, call);
      && (ReplyTo(table, call) == Did <==>
            && lease != "" && tier != "" && runner > 0 && name != "" && job.request != 0 && job.run >= 0 && job.id != ""
            && lease in table && table[lease].tier == tier && table[lease].name == name
            && (table[lease].runner == 0 || table[lease].runner == runner)
            && (table[lease].status == Idle || (table[lease].status == Busy && !Bound(table[lease])) || table[lease].job == job))
      && (ReplyTo(table, call) == Did ==>
            var m := table[lease];
            && lease in after && Others(table, after, lease) && after[lease].job == job
            && (if m.status in {Retiring, Retired} then after[lease] == m
                else if m.status == Busy && m.job == job
                then after[lease] == m.(identity := if m.identity == "" then identity else m.identity)
                else after[lease] == m.(status := Busy, runner := runner, job := job, identity := identity)))
  {
    NamedCall(table, Start(lease, tier, runner, name, job, identity));
  }

  // ---- What every call keeps ----

  /** A member nobody has been told the job of is unbound; a bound one is bound completely; and the row goes as
      soon as it is both settled and acknowledged. */
  predicate Sound(m: Member)
  {
    && (m.status.Idle? ==> m.job == NO_JOB) && (m.job == NO_JOB ==> m.identity == "")
    && (m.job != NO_JOB ==> m.job.request != 0 && m.job.id != "" && m.runner > 0)
    && m.runner >= 0 && !(m.status.Retired? && m.acknowledged)
  }

  /** The same member: its keys, its runner once known, its job and that job's identity once bound, for good. */
  predicate Stands(a: Member, b: Member)
  {
    && a.tier == b.tier && a.launchRequest == b.launchRequest && a.name == b.name
    && (a.runner != 0 ==> b.runner == a.runner)
    && (a.job != NO_JOB ==> b.job == a.job) && (a.identity != "" ==> b.identity == a.identity)
    && (a.status.Retired? ==> b.status.Retired?) && (a.acknowledged ==> b.acknowledged)
  }

  lemma RowStands(m: Member, call: Call)
    requires Sound(m) && RowAfter(m, call).Some?
    ensures Sound(RowAfter(m, call).value) && Stands(m, RowAfter(m, call).value)
    ensures !call.Settle? ==> (RowAfter(m, call).value.status.Retired? <==> m.status.Retired?)
    ensures !call.Acknowledge? ==> RowAfter(m, call).value.acknowledged == m.acknowledged
  {
    hide SameFold;
  }

  /** No two members share a name or a launch request. */
  ghost predicate TableSound(table: Table)
  {
    && (forall lease :: lease in table ==> Sound(table[lease]))
    && (forall a, b :: a in table && b in table && a != b ==> Apart(table[a], table[b]))
  }

  predicate Apart(a: Member, b: Member)
  {
    a.name != b.name && !(a.tier == b.tier && a.launchRequest == b.launchRequest)
  }

  /** What a call leaves of one member: what it does to that member if it reaches it, and nothing otherwise. */
  lemma ApplyAt(table: Table, call: Call, lease: string)
    requires TableSound(table) && lease in table
    ensures
      var after := Apply(table, call);
      if Reaches(call, lease, table[lease])
      then (lease in after <==> RowAfter(table[lease], call).Some?) &&
           (lease in after ==> after[lease] == RowAfter(table[lease], call).value)
      else lease in after && after[lease] == table[lease]
  {
    hide RowAfter, TableSound, Unclaimed, NewMember, Apply;
    if LeaseOf(call).Some? {
      NamedCall(table, call);
    } else if Reaches(call, lease, table[lease]) {
      RequestCall(table, call, Some(lease));
    } else if l :| l in table && Reaches(call, l, table[l]) {
      RequestCall(table, call, Some(l));
    } else {
      RequestCall(table, call, None);
    }
  }

  lemma PutKeepsSound(table: Table, lease: string, m: Option<Member>)
    requires TableSound(table) && lease in table && (m.Some? ==> Sound(m.value) && Stands(table[lease], m.value))
    ensures TableSound(Put(table, lease, m))
  {
    hide Sound;
  }

  lemma InsertKeepsSound(table: Table, c: Claim, status: Status)
    requires TableSound(table) && Complete(c) && status != Retired
    ensures TableSound(Inserted(table, c, status))
  {
    assert Sound(NewMember(c, status));
  }

  lemma ApplyKeepsSound(table: Table, call: Call)
    requires TableSound(table)
    ensures TableSound(Apply(table, call))
  {
    hide RowAfter, TableSound, Stands, Apply, Inserted, Put, Complete;
    if l :| l in table && Reaches(call, l, table[l]) {
      if LeaseOf(call).Some? {
        NamedCall(table, call);
      } else {
        RequestCall(table, call, Some(l));
      }
      SoundAt(table, l);
      if RowAfter(table[l], call).Some? {
        RowStands(table[l], call);
      }
      PutKeepsSound(table, l, RowAfter(table[l], call));
    } else {
      if LeaseOf(call).Some? {
        NamedCall(table, call);
      } else {
        RequestCall(table, call, None);
      }
      if WellFormed(call) && (call.Register? || call.Preserve? || call.RetireRecovered?) {
        InsertKeepsSound(table, call.claim, if call.Register? then Idle else if call.Preserve? then Busy else Retiring);
      }
    }
  }

  lemma SoundAt(table: Table, lease: string)
    requires TableSound(table) && lease in table
    ensures Sound(table[lease])
  {
  }

  // ---- Over every interleaving ----

  ghost function TableAt(table: Table, calls: seq<Call>, k: nat): Table
    requires k <= |calls|
  {
    if k == 0 then table else Apply(TableAt(table, calls, k - 1), calls[k - 1])
  }

  lemma {:induction false} RunKeepsSound(table: Table, calls: seq<Call>, k: nat)
    requires TableSound(table) && k <= |calls|
    ensures TableSound(TableAt(table, calls, k))
  {
    hide TableSound, Apply;
    if k > 0 {
      RunKeepsSound(table, calls, k - 1);
      ApplyKeepsSound(TableAt(table, calls, k - 1), calls[k - 1]);
    }
  }

  /** While a member's row lives, its bound job and its known runner never change. */
  lemma {:induction false} BindingStands(table: Table, calls: seq<Call>, a: nat, b: nat, lease: string)
    requires TableSound(table) && a <= b <= |calls|
    requires forall m :: a <= m <= b ==> lease in TableAt(table, calls, m)
    ensures Stands(TableAt(table, calls, a)[lease], TableAt(table, calls, b)[lease])
    ensures Sound(TableAt(table, calls, b)[lease])
    decreases b - a
  {
    hide Apply, RowAfter;
    RunKeepsSound(table, calls, b);
    if a < b {
      BindingStands(table, calls, a, b - 1, lease);
      var before := TableAt(table, calls, b - 1);
      RunKeepsSound(table, calls, b - 1);
      ApplyAt(before, calls[b - 1], lease);
      if Reaches(calls[b - 1], lease, before[lease]) {
        RowStands(before[lease], calls[b - 1]);
      }
    }
  }

  /** A completion, or GitHub's acknowledgement, of this request has been recorded since. */
  predicate Landed(calls: seq<Call>, a: nat, k: nat, call: Call)
    requires a <= k <= |calls|
  {
    call in calls[a..k]
  }

  /** A member neither settled nor acknowledged, left to those two calls in any order with any repeats among any
      others, is in the table while either is outstanding, and leaves it exactly with the second. */
  lemma {:induction false} SettleAndAcknowledge(table: Table, calls: seq<Call>, a: nat, k: nat, lease: string)
    requires TableSound(table) && a <= k <= |calls| && lease in TableAt(table, calls, a)
    requires !TableAt(table, calls, a)[lease].status.Retired? && !TableAt(table, calls, a)[lease].acknowledged
    requires Forget(lease) !in calls[a..k]
    ensures
      var m := TableAt(table, calls, a)[lease];
      var settled, acknowledged := Settle(m.tier, m.launchRequest), Acknowledge(m.tier, m.launchRequest);
      var both := Landed(calls, a, k, settled) && Landed(calls, a, k, acknowledged);
      && (!both ==>
            && lease in TableAt(table, calls, k) && Stands(m, TableAt(table, calls, k)[lease])
            && (TableAt(table, calls, k)[lease].status.Retired? <==> Landed(calls, a, k, settled))
            && (TableAt(table, calls, k)[lease].acknowledged <==> Landed(calls, a, k, acknowledged)))
      && (both && k > a && !(Landed(calls, a, k - 1, settled) && Landed(calls, a, k - 1, acknowledged)) ==>
            lease !in TableAt(table, calls, k))
    decreases k - a
  {
    hide Apply;
    if a < k {
      assert calls[a..k] == calls[a..k - 1] + [calls[k - 1]];
      SettleAndAcknowledge(table, calls, a, k - 1, lease);
      var m, before, call := TableAt(table, calls, a)[lease], TableAt(table, calls, k - 1), calls[k - 1];
      if !(Landed(calls, a, k - 1, Settle(m.tier, m.launchRequest)) && Landed(calls, a, k - 1, Acknowledge(m.tier, m.launchRequest))) {
        RunKeepsSound(table, calls, k - 1);
        ApplyAt(before, call, lease);
        OneCall(m, before[lease], lease, call);
      }
    }
  }

  /** One call's part in it. */
  lemma OneCall(m: Member, now: Member, lease: string, call: Call)
    requires Sound(now) && Stands(m, now) && call != Forget(lease)
    ensures
      var settle, acknowledge := Settle(m.tier, m.launchRequest), Acknowledge(m.tier, m.launchRequest);
      var after := if Reaches(call, lease, now) then RowAfter(now, call) else Some(now);
      && (after.None? <==> (call == settle && now.acknowledged) || (call == acknowledge && now.status.Retired?))
      && (after.Some? ==>
            && Stands(m, after.value)
            && (after.value.status.Retired? <==> now.status.Retired? || call == settle)
            && (after.value.acknowledged <==> now.acknowledged || call == acknowledge))
  {
    hide SameFold, IsThis, Filled;
    if Reaches(call, lease, now) && RowAfter(now, call).Some? {
      RowStands(now, call);
    }
  }

  // ---- The code ----

  /** The lease a call names, where it names one. */
  function LeaseOf(call: Call): Option<string>
  {
    match call
    case Register(c) => Some(c.lease)
    case Start(lease, _, _, _, _, _) => Some(lease)
    case Preserve(c) => Some(c.lease)
    case RetireRecovered(c) => Some(c.lease)
    case Reinstate(lease) => Some(lease)
    case Retire(lease) => Some(lease)
    case Forget(lease) => Some(lease)
    case _ => None
  }

  /** A call that names its lease acts on that member alone, or inserts it. */
  lemma NamedCall(table: Table, call: Call)
    requires LeaseOf(call).Some?
    ensures
      var lease := LeaseOf(call).value;
      Apply(table, call) == if lease in table then Put(table, lease, RowAfter(table[lease], call)) else InsertedBy(table, call)
  {
    hide RowAfter, InsertedBy, Put;
    if LeaseOf(call).value in table {
      assert Reaches(call, LeaseOf(call).value, table[LeaseOf(call).value]);
    }
  }

  /** A call that names a request acts on the one member launched for it, or on none. */
  lemma RequestCall(table: Table, call: Call, lease: Option<string>)
    requires TableSound(table) && LeaseOf(call).None?
    requires lease.Some? ==> lease.value in table && Reaches(call, lease.value, table[lease.value])
    requires lease.None? ==> forall l :: l in table ==> !Reaches(call, l, table[l])
    ensures Apply(table, call) == if lease.Some? then Put(table, lease.value, RowAfter(table[lease.value], call)) else table
  {
    hide RowAfter, Put, Sound;
    if lease.Some? {
      var l :| l in table && Reaches(call, l, table[l]) && Apply(table, call) == Put(table, l, RowAfter(table[l], call));
      assert l == lease.value || Apart(table[l], table[lease.value]);
    }
  }

  /** The pool-runner table, one transaction at a time. */
  class Pool {
    var members: Table

    /** Records the idle member created for a lease. */
    method RegisterPoolRunner(c: Claim) returns (reply: Reply)
      modifies this
      ensures members == Apply(old(members), Register(c)) && reply == ReplyTo(old(members), Register(c))
    {
      hide SameFold;
      NamedCall(members, Register(c));
      Unchanged(members, c.lease);
      if !Complete(c) {
        return Incomplete;
      }
      if c.lease !in members {
        reply := InsertMember(c, Idle);
        return;
      }
      var prior := members[c.lease];
      if !IsThis(prior, c) {
        return Conflicting;
      }
      members := members[c.lease := Filled(prior, c.target)];
      return Did;
    }

    /** Journals a new member, unless its name or its launch request is taken. */
    method InsertMember(c: Claim, status: Status) returns (reply: Reply)
      modifies this
      ensures members == Inserted(old(members), c, status) && reply == InsertReply(old(members), c)
    {
      if !IsFree(c) {
        return Taken;
      }
      members := members[c.lease := NewMember(c, status)];
      return Did;
    }

    predicate IsFree(c: Claim)
      reads this
    {
      Unclaimed(members, c)
    }

    /** Binds a member to the job GitHub gave it, once. */
    method StartPoolRunner(lease: string, tier: string, runner: int, name: string, job: Job, identity: string)
      returns (reply: Reply, out: Option<Member>)
      modifies this
      ensures members == Apply(old(members), Start(lease, tier, runner, name, job, identity))
      ensures reply == ReplyTo(old(members), Start(lease, tier, runner, name, job, identity))
      ensures if reply == Did then lease in members && out == Some(members[lease]) else out == None
    {
      out := None;
      NamedCall(members, Start(lease, tier, runner, name, job, identity));
      Unchanged(members, lease);
      if !WellFormed(Start(lease, tier, runner, name, job, identity)) {
        return Incomplete, None;
      }
      if lease !in members {
        return Unregistered, None;
      }
      var prior := members[lease];
      if prior.tier != tier || prior.name != name || (prior.runner != 0 && prior.runner != runner) {
        return Conflicting, None;
      }
      if prior.status == Retiring || prior.status == Retired {
        if prior.job == job {
          return Did, Some(prior);
        }
        return Conflicting, None;
      }
      if prior.status == Busy {
        if prior.job == NO_JOB {
          if prior.runner == 0 {
            prior := prior.(runner := runner);
          }
          prior := prior.(job := job, identity := identity);
        } else if prior.job != job {
          return Conflicting, None;
        } else if prior.identity == "" {
          prior := prior.(identity := identity);
        }
      } else {
        prior := prior.(runner := runner, status := Busy, job := job, identity := identity);
      }
      members := members[lease := prior];
      return Did, Some(prior);
    }

    /** Journals a registration GitHub says is busy, its job still unknown. */
    method PreserveRecoveredBusyPoolRunner(c: Claim) returns (reply: Reply)
      modifies this
      ensures members == Apply(old(members), Preserve(c)) && reply == ReplyTo(old(members), Preserve(c))
    {
      hide SameFold;
      NamedCall(members, Preserve(c));
      Unchanged(members, c.lease);
      if !Complete(c) || c.runner <= 0 {
        return Incomplete;
      }
      if c.lease !in members {
        reply := InsertMember(c, Busy);
        return;
      }
      var prior := members[c.lease];
      if !IsThis(prior, c) || prior.status == Retiring || prior.status == Retired {
        return Conflicting;
      }
      prior := Filled(prior, c.target);
      if prior.status != Busy {
        prior := prior.(runner := c.runner, status := Busy);
      }
      members := members[c.lease := prior];
      return Did;
    }

    /** Claims an idle or unbound member for teardown; a binding wins. */
    method RetireRecoveredPoolRunner(c: Claim) returns (reply: Reply, out: Option<Member>)
      modifies this
      ensures members == Apply(old(members), RetireRecovered(c)) && reply == ReplyTo(old(members), RetireRecovered(c))
      ensures if reply == Did then c.lease in members && out == Some(members[c.lease]) else out == None
    {
      hide SameFold;
      out := None;
      NamedCall(members, RetireRecovered(c));
      Unchanged(members, c.lease);
      if !Complete(c) {
        return Incomplete, None;
      }
      if c.lease !in members {
        reply := InsertMember(c, Retiring);
        if reply == Did {
          out := Some(members[c.lease]);
        }
        return;
      }
      var prior := members[c.lease];
      if !IsThis(prior, c) {
        return Conflicting, None;
      }
      prior := Filled(prior, c.target);
      if !(prior.status == Busy && prior.job != NO_JOB) && prior.status != Retiring && prior.status != Retired {
        prior := prior.(status := Retiring);
      }
      members := members[c.lease := prior];
      return Did, Some(prior);
    }

    /** Undoes a claim GitHub refused because the runner is working. */
    method ReinstateBusyPoolRunner(lease: string) returns (reply: Reply)
      modifies this
      ensures members == Apply(old(members), Reinstate(lease)) && reply == ReplyTo(old(members), Reinstate(lease))
    {
      NamedCall(members, Reinstate(lease));
      Unchanged(members, lease);
      if lease !in members {
        return Unregistered;
      }
      if members[lease].status != Retiring || members[lease].job != NO_JOB {
        return Conflicting;
      }
      members := members[lease := members[lease].(status := Busy)];
      return Did;
    }

    /** Claims one member for teardown; one already claimed is acknowledged. */
    method RetirePoolRunner(lease: string) returns (reply: Reply)
      modifies this
      ensures members == Apply(old(members), Retire(lease)) && reply == ReplyTo(old(members), Retire(lease))
    {
      NamedCall(members, Retire(lease));
      Unchanged(members, lease);
      if lease !in members {
        return Unregistered;
      }
      if members[lease].status == Idle || members[lease].status == Busy {
        members := members[lease := members[lease].(status := Retiring)];
      }
      return Did;
    }

    /** The member launched for a request. */
    method LaunchedFor(tier: string, request: int) returns (lease: Option<string>)
      ensures lease.Some? ==> lease.value in members && Serves(members[lease.value], tier, request)
      ensures lease.None? ==> forall l :: l in members ==> !Serves(members[l], tier, request)
    {
      var left := members.Keys;
      while left != {}
        invariant left <= members.Keys
        invariant forall l :: l in members && l !in left ==> !Serves(members[l], tier, request)
        decreases |left|
      {
        var l :| l in left;
        if Serves(members[l], tier, request) {
          return Some(l);
        }
        left := left - {l};
      }
      return None;
    }

    /** Records that the compute settled; with the acknowledgement in already, the row goes. */
    method SettlePoolRunner(tier: string, request: int)
      requires TableSound(members)
      modifies this
      ensures members == Apply(old(members), Settle(tier, request))
    {
      hide Sound, Apart;
      var lease := LaunchedFor(tier, request);
      RequestCall(members, Settle(tier, request), lease);
      if lease.None? {
        return;
      }
      if members[lease.value].acknowledged {
        members := members - {lease.value};
      } else {
        members := members[lease.value := members[lease.value].(status := Retired)];
      }
    }

    /** Records that GitHub cannot redeliver; with the settlement in already, the row goes. */
    method AcknowledgePoolRunner(tier: string, request: int)
      requires TableSound(members)
      modifies this
      ensures members == Apply(old(members), Acknowledge(tier, request))
    {
      hide Sound, Apart;
      var lease := LaunchedFor(tier, request);
      RequestCall(members, Acknowledge(tier, request), lease);
      if lease.None? {
        return;
      }
      if members[lease.value].status == Retired {
        members := members - {lease.value};
      } else {
        members := members[lease.value := members[lease.value].(acknowledged := true)];
      }
    }
  }

  lemma Unchanged(table: Table, lease: string)
    ensures lease in table ==> table[lease := table[lease]] == table
  {
  }
}

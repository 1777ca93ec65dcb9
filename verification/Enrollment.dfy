/** Asking to join, paid for by a token: what is spent, and when a name's key may change. */
module Enrollment {
  datatype State = Pending | Approved | Denied

  /** A request, or a certificate handed out, under a node's name. */
  datatype Request = Request(fingerprint: string, csr: string, certificate: string, state: State)

  datatype Token = Token(uses: nat, expiresAt: int)

  datatype Desk = Desk(requests: map<string, Request>, tokens: map<string, Token>)

  datatype Reply = Joined(request: Request) | BadToken | PoolName | HeldByAnother

  const POOL_PREFIX := "pool-"

  predicate IsPoolNodeName(name: string) { |name| >= |POOL_PREFIX| && name[..|POOL_PREFIX|] == POOL_PREFIX }

  /** This exact request is recorded already, whatever was decided: asking again is free. */
  predicate Known(d: Desk, name: string, fingerprint: string)
  {
    name in d.requests && d.requests[name].fingerprint == fingerprint
  }

  predicate Live(d: Desk, token: string, now: int)
  {
    token != "" && token in d.tokens && d.tokens[token].uses > 0 && d.tokens[token].expiresAt > now
  }

  function Spent(d: Desk, token: string): Desk
    requires token in d.tokens && d.tokens[token].uses > 0
  {
    d.(tokens := d.tokens[token := d.tokens[token].(uses := d.tokens[token].uses - 1)])
  }

  /** The name is open to this key: nobody asked under it, or who did was denied. */
  predicate Open(d: Desk, name: string, fingerprint: string)
  {
    name !in d.requests || (d.requests[name].state.Denied? && d.requests[name].fingerprint != fingerprint)
  }

  function Recorded(d: Desk, name: string, fingerprint: string, csr: string): Desk
  {
    d.(requests := d.requests[name := Request(fingerprint, csr, "", Pending)])
  }

  datatype Outcome = Outcome(reply: Reply, desk: Desk)

  /** The body of a request: a key that is not the name's own takes it only from a denial. */
  function Asked(d: Desk, name: string, fingerprint: string, csr: string): Outcome
  {
    if Open(d, name, fingerprint) then Outcome(Joined(Request(fingerprint, csr, "", Pending)), Recorded(d, name, fingerprint, csr))
    else if d.requests[name].fingerprint != fingerprint then Outcome(HeldByAnother, d)
    else Outcome(Joined(d.requests[name]), d)
  }

  /** A request and the token that pays for it, together or not at all. */
  function AskedWithToken(d: Desk, name: string, fingerprint: string, csr: string, token: string, now: int): Outcome
  {
    if Known(d, name, fingerprint) then Asked(d, name, fingerprint, csr)
    else if !Live(d, token, now) then Outcome(BadToken, d)
    else if IsPoolNodeName(name) then Outcome(PoolName, d)
    else
      var asked := Asked(Spent(d, token), name, fingerprint, csr);
      if asked.reply.Joined? then asked else Outcome(asked.reply, d)
  }

  datatype Ruling = Ruled | NobodyAsked | OtherKey | AlreadyRuled

  /** Whether a decision stands: on a request still waiting, by the fingerprint the operator read. */
  function RulingOn(d: Desk, name: string, fingerprint: string): Ruling
  {
    if name !in d.requests then NobodyAsked
    else if fingerprint == "" || d.requests[name].fingerprint != fingerprint then OtherKey
    else if !d.requests[name].state.Pending? then AlreadyRuled
    else Ruled
  }

  function Decided(d: Desk, name: string, fingerprint: string, approve: bool, certificate: string): Desk
  {
    if RulingOn(d, name, fingerprint) != Ruled then d
    else d.(requests := d.requests[name := d.requests[name].(certificate := certificate, state := if approve then Approved else Denied)])
  }

  /** A certificate handed out directly overwrites: a deliberate operator act. */
  function Issued(d: Desk, name: string, fingerprint: string, certificate: string): Desk
  {
    d.(requests := d.requests[name := Request(fingerprint, if name in d.requests then d.requests[name].csr else "", certificate, Approved)])
  }

  function Minted(d: Desk, token: string, uses: nat, expiresAt: int): Desk
  {
    if token == "" || token in d.tokens || uses == 0 then d else d.(tokens := d.tokens[token := Token(uses, expiresAt)])
  }

  // ---- The code ----

  class EnrollmentDesk {
    var requests: map<string, Request>
    var tokens: map<string, Token>

    function Value(): Desk
      reads this
    {
      Desk(requests, tokens)
    }

    /** The check and the decrement, in one statement. */
    method SpendJoinToken(token: string, now: int) returns (ok: bool)
      modifies this
      ensures ok == Live(old(Value()), token, now)
      ensures Value() == if ok then Spent(old(Value()), token) else old(Value())
    {
      if token == "" || token !in tokens {
        return false;
      }
      var t := tokens[token];
      ok := t.uses > 0 && t.expiresAt > now;
      if ok {
        tokens := tokens[token := t.(uses := t.uses - 1)];
      }
    }

    method RequestEnrollment(name: string, fingerprint: string, csr: string) returns (reply: Reply)
      modifies this
      ensures Outcome(reply, Value()) == Asked(old(Value()), name, fingerprint, csr)
    {
      if name in requests {
        var existing := requests[name];
        if !(existing.state == Denied && existing.fingerprint != fingerprint) {
          return if existing.fingerprint != fingerprint then HeldByAnother else Joined(existing);
        }
      }
      requests := requests[name := Request(fingerprint, csr, "", Pending)];
      return Joined(requests[name]);
    }

    /** Records a request and spends what authorised it in one transaction; a refusal rolls the spend back. */
    method RequestEnrollmentWithToken(name: string, fingerprint: string, csr: string, token: string, now: int) returns (reply: Reply)
      modifies this
      ensures Outcome(reply, Value()) == AskedWithToken(old(Value()), name, fingerprint, csr, token, now)
    {
      var known := name in requests && requests[name].fingerprint == fingerprint;
      var wasRequests, wasTokens := requests, tokens;
      if !known {
        var live := token != "" && token in tokens && tokens[token].uses > 0 && tokens[token].expiresAt > now;
        if !live {
          return BadToken;
        }
        if IsPoolNodeName(name) {
          return PoolName;
        }
        var spent := SpendJoinToken(token, now);
        if !spent {
          return BadToken;
        }
      }
      reply := RequestEnrollment(name, fingerprint, csr);
      if !reply.Joined? {
        requests, tokens := wasRequests, wasTokens;
      }
    }

    /** Decides a request still waiting, by the fingerprint the operator read, and keeps the certificate issued. */
    method DecideEnrollment(name: string, fingerprint: string, approve: bool, certificate: string) returns (ruling: Ruling)
      modifies this
      ensures Value() == Decided(old(Value()), name, fingerprint, approve, certificate)
      ensures ruling == RulingOn(old(Value()), name, fingerprint)
    {
      if name !in requests {
        return NobodyAsked;
      }
      var existing := requests[name];
      if fingerprint == "" || existing.fingerprint != fingerprint {
        return OtherKey;
      }
      if existing.state != Pending {
        return AlreadyRuled;
      }
      requests := requests[name := existing.(certificate := certificate, state := if approve then Approved else Denied)];
      return Ruled;
    }
  }

  // ---- Runs ----

  datatype Event =
    | Ask(name: string, fingerprint: string, csr: string)
    | AskWithToken(name: string, fingerprint: string, csr: string, token: string)
    | Decide(name: string, fingerprint: string, approve: bool, certificate: string)
    | Issue(name: string, fingerprint: string, certificate: string)
    | Mint(token: string, uses: nat, expiresAt: int)

  datatype Tick = Tick(now: int, event: Event)

  function Apply(d: Desk, t: Tick): Desk
  {
    match t.event
    case Ask(name, fingerprint, csr) => Asked(d, name, fingerprint, csr).desk
    case AskWithToken(name, fingerprint, csr, token) => AskedWithToken(d, name, fingerprint, csr, token, t.now).desk
    case Decide(name, fingerprint, approve, certificate) => Decided(d, name, fingerprint, approve, certificate)
    case Issue(name, fingerprint, certificate) => Issued(d, name, fingerprint, certificate)
    case Mint(token, uses, expiresAt) => Minted(d, token, uses, expiresAt)
  }

  function At(d: Desk, run: seq<Tick>, k: nat): Desk
    requires k <= |run|
  {
    if k == 0 then d else Apply(At(d, run, k - 1), run[k - 1])
  }

  /** A request through the token path that is new under its name: inserted, or taking over from a denial. */
  predicate Admits(d: Desk, t: Tick, token: string)
  {
    && t.event.AskWithToken? && t.event.token == token
    && Open(d, t.event.name, t.event.fingerprint)
    && Apply(d, t).requests != d.requests
  }

  function Uses(d: Desk, token: string): int { if token in d.tokens then d.tokens[token].uses else 0 }

  function MintedUses(d: Desk, t: Tick, token: string): nat
  {
    if t.event.Mint? && t.event.token == token && token != "" && token !in d.tokens then t.event.uses else 0
  }

  /** What one event costs a token: one use for a request it newly admits, nothing for anything else. */
  lemma StepSpends(d: Desk, t: Tick, token: string)
    ensures Uses(Apply(d, t), token) == Uses(d, token) + MintedUses(d, t, token) - (if Admits(d, t, token) then 1 else 0)
  {
    if t.event.AskWithToken? {
      AskSpends(d, t);
    }
  }

  lemma AskSpends(d: Desk, t: Tick)
    requires t.event.AskWithToken?
    ensures
      var token, after := t.event.token, Apply(d, t);
      if after.requests != d.requests
      then Open(d, t.event.name, t.event.fingerprint) && Live(d, token, t.now) && after.tokens == Spent(d, token).tokens
      else after.tokens == d.tokens
  {
    var e := t.event;
    var row := Request(e.fingerprint, e.csr, "", Pending);
    if Open(d, e.name, e.fingerprint) {
      assert Recorded(d, e.name, e.fingerprint, e.csr).requests[e.name] == row;
      assert e.name in d.requests ==> d.requests[e.name] != row;
    }
  }

  function Admitted(d: Desk, run: seq<Tick>, k: nat, token: string): nat
    requires k <= |run|
  {
    if k == 0 then 0 else Admitted(d, run, k - 1, token) + if Admits(At(d, run, k - 1), run[k - 1], token) then 1 else 0
  }

  function MintedBy(d: Desk, run: seq<Tick>, k: nat, token: string): nat
    requires k <= |run|
  {
    if k == 0 then 0 else MintedBy(d, run, k - 1, token) + MintedUses(At(d, run, k - 1), run[k - 1], token)
  }

  /** Over every run, a token's uses gone are exactly the requests it newly admitted. */
  lemma {:induction false} UsesAreAdmissions(d: Desk, run: seq<Tick>, k: nat, token: string)
    requires k <= |run|
    ensures Uses(At(d, run, k), token) + Admitted(d, run, k, token) == Uses(d, token) + MintedBy(d, run, k, token)
  {
    hide Apply, Admits, MintedUses;
    if k > 0 {
      UsesAreAdmissions(d, run, k - 1, token);
      StepSpends(At(d, run, k - 1), run[k - 1], token);
    }
  }

  /** Asking again, and asking under a name another key holds, cost nothing and change nothing. */
  lemma PollsAreFree(d: Desk, name: string, fingerprint: string, csr: string, token: string, now: int)
    requires name in d.requests && (d.requests[name].fingerprint == fingerprint || !d.requests[name].state.Denied?)
    ensures AskedWithToken(d, name, fingerprint, csr, token, now).desk == d
  {
  }

  /** Outside direct issue, a name keeps its key unless it was denied. */
  lemma KeyChangesOnlyFromDenied(d: Desk, run: seq<Tick>, k: nat, name: string)
    requires k < |run| && !run[k].event.Issue? && name in At(d, run, k).requests
    ensures
      var was, now := At(d, run, k).requests, At(d, run, k + 1).requests;
      name in now && (now[name].fingerprint != was[name].fingerprint ==> was[name].state.Denied? && now[name].state.Pending?)
  {
    hide At;
    AtNext(d, run, k);
  }

  lemma AtNext(d: Desk, run: seq<Tick>, k: nat)
    requires k < |run|
    ensures At(d, run, k + 1) == Apply(At(d, run, k), run[k])
  {
  }

  /** So an approved key stands, over every run without direct issue. */
  lemma {:induction false} ApprovedKeyStands(d: Desk, run: seq<Tick>, a: nat, b: nat, name: string)
    requires a <= b <= |run| && (forall m :: a <= m < b ==> !run[m].event.Issue?)
    requires name in At(d, run, a).requests && At(d, run, a).requests[name].state.Approved?
    ensures name in At(d, run, b).requests && At(d, run, b).requests[name] == At(d, run, a).requests[name]
    decreases b - a
  {
    hide At;
    if a < b {
      ApprovedKeyStands(d, run, a, b - 1, name);
      AtNext(d, run, b - 1);
    }
  }

  // ---- What the desk holds is history ----

  const NOBODY := Desk(map[], map[])

  /** The event asks for this name with this key and request. */
  predicate AsksFor(e: Event, name: string, fingerprint: string, csr: string)
  {
    (e.Ask? || e.AskWithToken?) && e.name == name && e.fingerprint == fingerprint && e.csr == csr
  }

  /** The event made the row what it is: it asked, an operator read its key and decided so, or one was handed out. */
  predicate Made(e: Event, name: string, r: Request)
  {
    match r.state
    case Pending => AsksFor(e, name, r.fingerprint, r.csr) && r.certificate == ""
    case Approved =>
      || (e.Decide? && e.name == name && e.fingerprint == r.fingerprint && e.approve && e.certificate == r.certificate)
      || (e.Issue? && e.name == name && e.fingerprint == r.fingerprint && e.certificate == r.certificate)
    case Denied => e.Decide? && e.name == name && e.fingerprint == r.fingerprint && !e.approve && e.certificate == r.certificate
  }

  lemma StepMakes(d: Desk, t: Tick, name: string)
    requires name in Apply(d, t).requests
    ensures Made(t.event, name, Apply(d, t).requests[name]) || (name in d.requests && Apply(d, t).requests[name] == d.requests[name])
  {
  }

  /** Every row at the desk was made by an event of the run and has stood since: a pending one by its asking, an approved
      one by an operator approving its key or handing out its certificate, a denied one by an operator denying it. */
  lemma {:induction false} RowIsHistory(run: seq<Tick>, k: nat, name: string) returns (m: nat)
    requires k <= |run| && name in At(NOBODY, run, k).requests
    ensures m < k && Made(run[m].event, name, At(NOBODY, run, k).requests[name])
    ensures forall i :: m < i <= k ==> name in At(NOBODY, run, i).requests && At(NOBODY, run, i).requests[name] == At(NOBODY, run, k).requests[name]
  {
    hide Apply, Made;
    StepMakes(At(NOBODY, run, k - 1), run[k - 1], name);
    if Made(run[k - 1].event, name, At(NOBODY, run, k).requests[name]) {
      return k - 1;
    }
    m := RowIsHistory(run, k - 1, name);
  }

  /** A decision by the fingerprint a waiting request has is final: the row says it, with the certificate. */
  lemma DecisionTakes(d: Desk, t: Tick)
    requires t.event.Decide? && t.event.name in d.requests && t.event.fingerprint != ""
    requires d.requests[t.event.name].state.Pending? && d.requests[t.event.name].fingerprint == t.event.fingerprint
    ensures
      var e, was, after := t.event, d.requests[t.event.name], Apply(d, t);
      && e.name in after.requests && after.requests[e.name].state == (if e.approve then Approved else Denied)
      && after.requests[e.name].certificate == e.certificate
      && after.requests[e.name].fingerprint == was.fingerprint && after.requests[e.name].csr == was.csr
      && after.tokens == d.tokens && after.requests - {e.name} == d.requests - {e.name}
  {
  }

  /** The first mint of a token that made any uses of it. */
  predicate FirstMint(run: seq<Tick>, k: nat, m: nat, token: string)
    requires k <= |run|
  {
    m < k && Mints(run[m].event, token) && forall i :: 0 <= i < m ==> !Mints(run[i].event, token)
  }

  predicate Mints(e: Event, token: string) { e.Mint? && e.token == token && token != "" && e.uses > 0 }

  lemma TokenStep(d: Desk, t: Tick, token: string)
    ensures
      var after := Apply(d, t).tokens;
      if token in d.tokens then token in after && after[token].expiresAt == d.tokens[token].expiresAt
      else if Mints(t.event, token) then token in after && after[token] == Token(t.event.uses, t.event.expiresAt)
      else token !in after
  {
  }

  /** A token at the desk is its first mint's: its expiry, and its uses less those it has admitted. */
  lemma {:induction false} TokenIsHistory(run: seq<Tick>, k: nat, token: string)
    requires k <= |run|
    ensures
      var tokens := At(NOBODY, run, k).tokens;
      && (token in tokens <==> exists m: nat :: FirstMint(run, k, m, token))
      && (forall m: nat :: FirstMint(run, k, m, token) ==>
            token in tokens && tokens[token].expiresAt == run[m].event.expiresAt && MintedBy(NOBODY, run, k, token) == run[m].event.uses)
      && (token !in tokens ==> MintedBy(NOBODY, run, k, token) == 0)
  {
    hide Apply;
    if k > 0 {
      TokenIsHistory(run, k - 1, token);
      var d, t := At(NOBODY, run, k - 1), run[k - 1];
      TokenStep(d, t, token);
      var before := k - 1;
      if m: nat :| FirstMint(run, before, m, token) {
        assert FirstMint(run, k, m, token);
      } else if Mints(t.event, token) {
        NoneBefore(run, k - 1, token);
        assert FirstMint(run, k, k - 1, token);
      }
    }
  }

  lemma {:induction false} NoneBefore(run: seq<Tick>, k: nat, token: string)
    requires k <= |run| && forall m: nat :: !FirstMint(run, k, m, token)
    ensures forall i :: 0 <= i < k ==> !Mints(run[i].event, token)
  {
    if k > 0 {
      var before := k - 1;
      forall m: nat ensures !FirstMint(run, before, m, token) {
        assert !FirstMint(run, k, m, token);
      }
      NoneBefore(run, before, token);
      assert !FirstMint(run, k, before, token);
    }
  }

  predicate StartsPool(name: string) { |name| >= 5 && name[0] == 'p' && name[1] == 'o' && name[2] == 'o' && name[3] == 'l' && name[4] == '-' }

  /** The token was minted, has not expired and has admitted fewer than its uses. */
  ghost predicate Pays(run: seq<Tick>, k: nat, token: string)
    requires k < |run|
  {
    exists m: nat :: FirstMint(run, k, m, token) && run[m].event.expiresAt > run[k].now && Admitted(NOBODY, run, k, token) < run[m].event.uses
  }

  /** The token path records a new request exactly when nobody holds the name but who was denied, the name is not a
      pool's, and the token was minted, has not expired and has admitted fewer than its uses. */
  lemma AdmitsExactlyWhen(run: seq<Tick>, k: nat)
    requires k < |run| && run[k].event.AskWithToken?
    ensures
      var e, d := run[k].event, At(NOBODY, run, k);
      Admits(d, run[k], e.token) <==>
        && (e.name in d.requests ==> d.requests[e.name].state.Denied? && d.requests[e.name].fingerprint != e.fingerprint)
        && !StartsPool(e.name)
        && Pays(run, k, run[k].event.token)
  {
    hide At, Admitted, FirstMint;
    var e, d := run[k].event, At(NOBODY, run, k);
    AdmitsMeans(d, run[k]);
    PaysMeans(run, k, e.token);
  }

  lemma PaysMeans(run: seq<Tick>, k: nat, token: string)
    requires k < |run|
    ensures Live(At(NOBODY, run, k), token, run[k].now) <==> Pays(run, k, token)
  {
    hide At, Admitted, FirstMint;
    TokenIsHistory(run, k, token);
    UsesAreAdmissions(NOBODY, run, k, token);
    FirstMintNamed(run, k, token);
    if m: nat :| FirstMint(run, k, m, token) {
      assert Uses(At(NOBODY, run, k), token) == run[m].event.uses - Admitted(NOBODY, run, k, token);
    }
  }

  lemma FirstMintNamed(run: seq<Tick>, k: nat, token: string)
    requires k <= |run|
    ensures forall m, n: nat :: FirstMint(run, k, m, token) && FirstMint(run, k, n, token) ==> m == n
    ensures forall m: nat :: FirstMint(run, k, m, token) ==> m < k && token != "" && run[m].event.Mint?
  {
  }

  lemma AdmitsMeans(d: Desk, t: Tick)
    requires t.event.AskWithToken?
    ensures
      var e := t.event;
      Admits(d, t, e.token) <==> Open(d, e.name, e.fingerprint) && !StartsPool(e.name) && Live(d, e.token, t.now)
  {
    var e := t.event;
    var row := Request(e.fingerprint, e.csr, "", Pending);
    PoolNames(e.name);
    if Open(d, e.name, e.fingerprint) {
      assert Recorded(d, e.name, e.fingerprint, e.csr).requests[e.name] == row;
      assert e.name in d.requests ==> d.requests[e.name] != row;
    }
  }

  lemma PoolNames(name: string)
    ensures IsPoolNodeName(name) <==> StartsPool(name)
  {
    assert |POOL_PREFIX| == 5;
    if |name| >= 5 {
      var head := name[..5];
      assert head[0] == name[0] && head[1] == name[1] && head[2] == name[2] && head[3] == name[3] && head[4] == name[4];
      if StartsPool(name) {
        assert head == POOL_PREFIX;
      }
    }
  }

  /** What the one who asks is told is how things stand: whoever is told of a request holds the name, under the key asked
      with; a refusal changes nothing and says the first thing wrong. */
  lemma RepliesAreTrue(d: Desk, name: string, fingerprint: string, csr: string, token: string, now: int)
    ensures
      var o := AskedWithToken(d, name, fingerprint, csr, token, now);
      var mine := name in d.requests && d.requests[name].fingerprint == fingerprint;
      var held := name in d.requests && d.requests[name].fingerprint != fingerprint && !d.requests[name].state.Denied?;
      && (o.reply.Joined? ==> name in o.desk.requests && o.desk.requests[name] == o.reply.request && o.reply.request.fingerprint == fingerprint)
      && (!o.reply.Joined? ==> o.desk == d && !mine)
      && (o.reply == BadToken <==> !mine && !Live(d, token, now))
      && (o.reply == PoolName <==> !mine && Live(d, token, now) && StartsPool(name))
      && (o.reply == HeldByAnother <==> held && Live(d, token, now) && !StartsPool(name))
  {
    PoolNames(name);
  }
}

/**
 * Port leases (at-daemon/src/control.c:12-136): what each call does to the table, and what the answers
 * mean over whole runs. Every call carries the monotonic time it reads; the times of a run never decrease.
 */
module LeaseModel {
  import Numerals
  import opened Options

  datatype Lease = Lease(port: string, owner: string, token: string, expires: nat)
  datatype Table = Table(leases: seq<Lease>, next: nat)

  datatype Call =
    | Acquire(port: string, owner: string, ttl: nat)
    | Renew(port: string, owner: string, token: string, ttl: nat)
    | Release(port: string, owner: string, token: string)
    | Authorize(port: string, who: Option<string>)
  datatype Timed = Timed(now: nat, call: Call)

  // `token` and `expires` are what the call writes through its out-parameters, when it does.
  datatype Answer = Answer(code: int, token: string, expires: nat)

  const NAME_SIZE := 64
  const TOKEN_SIZE := 96
  const COUNTER_LIMIT := Numerals.Pow(16, 16)

  const EMPTY := Table([], 0)

  predicate Component(value: string, maximum: nat) { 0 < |value| < maximum }

  predicate GoodTtl(ttl: nat) { 1 <= ttl <= 300 }

  predicate Named(port: string, owner: string) { Component(port, NAME_SIZE) && Component(owner, NAME_SIZE) }

  function Token(epoch: nat, id: nat): string {
    Numerals.Print(epoch, 16) + "-" + Numerals.Print(id, 16)
  }

  function Live(leases: seq<Lease>, now: nat): seq<Lease> {
    if leases == [] then []
    else (if leases[0].expires <= now then [] else [leases[0]]) + Live(leases[1..], now)
  }

  // The first lease of a port, or the length of the table.
  function FindPort(leases: seq<Lease>, port: string): (i: nat)
    ensures i <= |leases|
    ensures i < |leases| ==> leases[i].port == port
    ensures forall j :: 0 <= j < i ==> leases[j].port != port
  {
    if leases == [] || leases[0].port == port then 0 else 1 + FindPort(leases[1..], port)
  }

  predicate Fits(l: Lease, port: string, owner: string, token: string) {
    l.port == port && l.owner == owner && l.token == token
  }

  function FindLease(leases: seq<Lease>, port: string, owner: string, token: string): (i: nat)
    ensures i <= |leases|
    ensures i < |leases| ==> Fits(leases[i], port, owner, token)
    ensures forall j :: 0 <= j < i ==> !Fits(leases[j], port, owner, token)
  {
    if leases == [] || Fits(leases[0], port, owner, token) then 0
    else 1 + FindLease(leases[1..], port, owner, token)
  }

  function Until(now: nat, ttl: nat): nat { now + ttl * 1000 }

  function Extended(l: Lease, expires: nat): Lease { Lease(l.port, l.owner, l.token, expires) }

  // ---- the table after a call, and its answer ----

  function AfterAcquire(epoch: nat, t: Table, now: nat, port: string, owner: string, ttl: nat): (Table, Answer) {
    if !Named(port, owner) || !GoodTtl(ttl) then (t, Answer(-1, "", 0))
    else
      var live := Live(t.leases, now);
      if FindPort(live, port) < |live| then (Table(live, t.next), Answer(-2, "", 0))
      else
        var lease := Lease(port, owner, Token(epoch, t.next + 1), Until(now, ttl));
        (Table([lease] + live, t.next + 1), Answer(0, lease.token, lease.expires))
  }

  function AfterRenew(t: Table, now: nat, port: string, owner: string, token: string, ttl: nat): (Table, Answer) {
    if !Named(port, owner) || !Component(token, TOKEN_SIZE) || !GoodTtl(ttl) then (t, Answer(-1, "", 0))
    else
      var live := Live(t.leases, now);
      var i := FindLease(live, port, owner, token);
      if i == |live| then (Table(live, t.next), Answer(-2, "", 0))
      else (Table(live[i := Extended(live[i], Until(now, ttl))], t.next), Answer(0, "", Until(now, ttl)))
  }

  function AfterRelease(t: Table, now: nat, port: string, owner: string, token: string): (Table, Answer) {
    var live := Live(t.leases, now);
    var i := FindLease(live, port, owner, token);
    if i == |live| then (Table(live, t.next), Answer(-1, "", 0))
    else (Table(live[..i] + live[i + 1..], t.next), Answer(0, "", 0))
  }

  function AfterAuthorize(t: Table, now: nat, port: string, who: Option<string>): (Table, Answer) {
    var live := Live(t.leases, now);
    var i := FindPort(live, port);
    (Table(live, t.next), Answer(if i == |live| || who == Some(live[i].owner) then 0 else -1, "", 0))
  }

  function After(epoch: nat, t: Table, e: Timed): (Table, Answer) {
    match e.call
    case Acquire(port, owner, ttl) => AfterAcquire(epoch, t, e.now, port, owner, ttl)
    case Renew(port, owner, token, ttl) => AfterRenew(t, e.now, port, owner, token, ttl)
    case Release(port, owner, token) => AfterRelease(t, e.now, port, owner, token)
    case Authorize(port, who) => AfterAuthorize(t, e.now, port, who)
  }

  // ---- runs, and what their answers mean ----

  type Run = seq<Timed>

  ghost predicate Ordered(run: Run) {
    forall i, j :: 0 <= i < j < |run| ==> run[i].now <= run[j].now
  }

  function TableAt(epoch: nat, run: Run, k: nat): Table
    requires k <= |run|
  {
    if k == 0 then EMPTY else After(epoch, TableAt(epoch, run, k - 1), run[k - 1]).0
  }

  function AnswerAt(epoch: nat, run: Run, k: nat): Answer
    requires k < |run|
  {
    After(epoch, TableAt(epoch, run, k), run[k]).1
  }

  // Call i acquired a lease.
  predicate Won(epoch: nat, run: Run, i: nat)
    requires i < |run|
  {
    run[i].call.Acquire? && AnswerAt(epoch, run, i).code == 0
  }

  // The expiry the caller of acquire i was last told, or None once a release with its token succeeded:
  // read off the calls and answers alone.
  function Told(epoch: nat, run: Run, i: nat, k: nat): Option<nat>
    requires i < k <= |run|
    decreases k
  {
    var mine := AnswerAt(epoch, run, i);
    if k == i + 1 then Some(mine.expires)
    else
      var call := run[k - 1].call;
      var answer := AnswerAt(epoch, run, k - 1);
      if call.Renew? && answer.code == 0 && call.token == mine.token then Some(answer.expires)
      else if call.Release? && answer.code == 0 && call.token == mine.token then None
      else Told(epoch, run, i, k - 1)
  }

  // The lease of acquire i is in force at call k: not released before it, and its latest expiry not reached.
  predicate Holds(epoch: nat, run: Run, i: nat, k: nat)
    requires i < k < |run|
  {
    match Told(epoch, run, i, k)
    case None => false
    case Some(expires) => run[k].now < expires
  }

  // ---- the table as a set of leases ----

  // At most one lease for a port, and one for a token.
  ghost predicate Distinct(ls: seq<Lease>) {
    forall a, b :: 0 <= a < b < |ls| ==> ls[a].port != ls[b].port && ls[a].token != ls[b].token
  }

  // Every unexpired lease whose token is not in `gone` stays, and nothing else is there but `added`.
  ghost predicate Effect(was: seq<Lease>, now: nat, ls: seq<Lease>, gone: set<string>, added: set<Lease>) {
    && (forall l :: l in was && l.expires > now && l.token !in gone ==> l in ls)
    && (forall l :: l in ls ==> (l in was && l.token !in gone) || l in added)
    && (forall l :: l in added ==> l in ls)
  }

  lemma {:induction false} LiveIs(ls: seq<Lease>, now: nat)
    ensures forall l :: l in Live(ls, now) <==> l in ls && l.expires > now
    ensures |Live(ls, now)| <= |ls|
  {
    if ls != [] {
      LiveIs(ls[1..], now);
      assert forall l :: l in ls <==> l == ls[0] || l in ls[1..];
    }
  }

  lemma {:induction false} LiveDistinct(ls: seq<Lease>, now: nat)
    requires Distinct(ls)
    ensures Distinct(Live(ls, now))
  {
    if ls != [] {
      LiveDistinct(ls[1..], now);
      LiveIs(ls[1..], now);
      assert [ls[0]] + ls[1..] == ls;
      DistinctCons(ls[0], Live(ls[1..], now), ls[1..]);
    }
  }

  // A lease that stands apart from a table stands apart from every part of it.
  lemma DistinctCons(l: Lease, part: seq<Lease>, ls: seq<Lease>)
    requires Distinct([l] + ls) && Distinct(part) && forall x :: x in part ==> x in ls
    ensures Distinct([l] + part)
  {
    forall b | 0 <= b < |part| ensures l.port != part[b].port && l.token != part[b].token {
      assert part[b] in ls;
      var c :| 0 <= c < |ls| && ls[c] == part[b];
      assert ([l] + ls)[0] == l && ([l] + ls)[c + 1] == part[b];
    }
  }

  lemma ExpiryEffect(ls: seq<Lease>, now: nat)
    requires Distinct(ls)
    ensures Effect(ls, now, ls, {}, {}) && Effect(ls, now, Live(ls, now), {}, {})
    ensures Distinct(Live(ls, now))
  {
    LiveIs(ls, now);
    LiveDistinct(ls, now);
  }

  function GoneBy(e: Timed, code: int): set<string> {
    if code != 0 then {}
    else match e.call
      case Renew(_, _, token, _) => {token}
      case Release(_, _, token) => {token}
      case _ => {}
  }

  function AddedBy(epoch: nat, t: Table, e: Timed, code: int): set<Lease> {
    if code != 0 then {}
    else match e.call
      case Acquire(port, owner, ttl) => {Lease(port, owner, Token(epoch, t.next + 1), Until(e.now, ttl))}
      case Renew(port, owner, token, ttl) => {Lease(port, owner, token, Until(e.now, ttl))}
      case _ => {}
  }

  ghost predicate Fresh(ls: seq<Lease>, token: string) { forall l :: l in ls ==> l.token != token }

  lemma AcquireEffect(epoch: nat, t: Table, e: Timed)
    requires e.call.Acquire? && Distinct(t.leases) && Fresh(t.leases, Token(epoch, t.next + 1))
    ensures var (u, answer) := After(epoch, t, e);
      && Distinct(u.leases)
      && Effect(t.leases, e.now, u.leases, GoneBy(e, answer.code), AddedBy(epoch, t, e, answer.code))
  {
    ExpiryEffect(t.leases, e.now);
    LiveIs(t.leases, e.now);
    if AfterAcquire(epoch, t, e.now, e.call.port, e.call.owner, e.call.ttl).1.code == 0 {
      var live := Live(t.leases, e.now);
      var lease := Lease(e.call.port, e.call.owner, Token(epoch, t.next + 1), Until(e.now, e.call.ttl));
      forall b | 0 <= b < |live| ensures live[b].port != lease.port && live[b].token != lease.token {
        assert live[b] in t.leases;
      }
    }
  }

  lemma ExtendedOne(ls: seq<Lease>, i: nat, expires: nat)
    requires Distinct(ls) && i < |ls|
    ensures var up := ls[i := Extended(ls[i], expires)];
      && Distinct(up)
      && forall l :: l in up <==> (l in ls && l.token != ls[i].token) || l == Extended(ls[i], expires)
  {
    var up := ls[i := Extended(ls[i], expires)];
    assert up[i] == Extended(ls[i], expires);
    forall l | l in up ensures (l in ls && l.token != ls[i].token) || l == up[i] {
      var b :| 0 <= b < |up| && up[b] == l;
    }
    forall l | l in ls && l.token != ls[i].token ensures l in up {
      var b :| 0 <= b < |ls| && ls[b] == l;
      assert up[b] == l;
    }
  }

  lemma RenewEffect(epoch: nat, t: Table, e: Timed)
    requires e.call.Renew? && Distinct(t.leases)
    ensures var (u, answer) := After(epoch, t, e);
      && Distinct(u.leases)
      && Effect(t.leases, e.now, u.leases, GoneBy(e, answer.code), AddedBy(epoch, t, e, answer.code))
  {
    ExpiryEffect(t.leases, e.now);
    LiveIs(t.leases, e.now);
    if After(epoch, t, e).1.code == 0 {
      var live := Live(t.leases, e.now);
      ExtendedOne(live, FindLease(live, e.call.port, e.call.owner, e.call.token), Until(e.now, e.call.ttl));
    }
  }

  lemma WithoutOne(ls: seq<Lease>, i: nat)
    requires Distinct(ls) && i < |ls|
    ensures var cut := ls[..i] + ls[i + 1..];
      && Distinct(cut)
      && forall l :: l in cut <==> l in ls && l.token != ls[i].token
  {
    var cut := ls[..i] + ls[i + 1..];
    assert forall b :: 0 <= b < |cut| ==> cut[b] == ls[if b < i then b else b + 1];
    forall l | l in ls && l.token != ls[i].token ensures l in cut {
      var b :| 0 <= b < |ls| && ls[b] == l;
      assert l == cut[if b < i then b else b - 1];
    }
  }

  lemma ReleaseEffect(epoch: nat, t: Table, e: Timed)
    requires e.call.Release? && Distinct(t.leases)
    ensures var (u, answer) := After(epoch, t, e);
      && Distinct(u.leases)
      && Effect(t.leases, e.now, u.leases, GoneBy(e, answer.code), AddedBy(epoch, t, e, answer.code))
  {
    ExpiryEffect(t.leases, e.now);
    LiveIs(t.leases, e.now);
    if After(epoch, t, e).1.code == 0 {
      var live := Live(t.leases, e.now);
      WithoutOne(live, FindLease(live, e.call.port, e.call.owner, e.call.token));
    }
  }

  lemma StepEffect(epoch: nat, t: Table, e: Timed)
    requires Distinct(t.leases) && Fresh(t.leases, Token(epoch, t.next + 1))
    ensures var (u, answer) := After(epoch, t, e);
      && Distinct(u.leases)
      && Effect(t.leases, e.now, u.leases, GoneBy(e, answer.code), AddedBy(epoch, t, e, answer.code))
  {
    match e.call
    case Acquire(_, _, _) => AcquireEffect(epoch, t, e);
    case Renew(_, _, _, _) => RenewEffect(epoch, t, e);
    case Release(_, _, _) => ReleaseEffect(epoch, t, e);
    case Authorize(_, _) => ExpiryEffect(t.leases, e.now);
  }
}

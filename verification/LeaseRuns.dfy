/** What a caller of the lease table may rely on, over every run (at-daemon/src/control.c:36-136). */
module LeaseRuns {
  import Numerals
  import opened LeaseModel
  import opened Options

  // The lease that acquire i created, with an expiry.
  function LeaseOf(epoch: nat, run: Run, i: nat, expires: nat): Lease
    requires i < |run| && run[i].call.Acquire?
  {
    Lease(run[i].call.port, run[i].call.owner, AnswerAt(epoch, run, i).token, expires)
  }

  // The time of the last call made so far.
  function Clock(run: Run, k: nat): nat
    requires k <= |run|
  {
    if k == 0 then 0 else run[k - 1].now
  }

  // The table has the lease `mine` with the expiry told, unless that time has passed or it was released;
  // and nothing else with its token.
  ghost predicate Agree(ls: seq<Lease>, clock: nat, told: Option<nat>, mine: Lease) {
    && (told.Some? && told.value > clock ==> Extended(mine, told.value) in ls)
    && (forall l :: l in ls && l.token == mine.token ==> told.Some? && l == Extended(mine, told.value))
  }

  // Acquire i and the table agree after k calls.
  ghost predicate Linked(epoch: nat, run: Run, i: nat, k: nat)
    requires i < k <= |run| && run[i].call.Acquire?
  {
    Agree(TableAt(epoch, run, k).leases, Clock(run, k), Told(epoch, run, i, k), LeaseOf(epoch, run, i, 0))
  }

  ghost predicate Numbered(epoch: nat, ls: seq<Lease>, next: nat) {
    forall l :: l in ls ==> Known(epoch, next, l.token)
  }

  ghost predicate Known(epoch: nat, next: nat, token: string) {
    exists n :: IsToken(epoch, n, next, token)
  }

  ghost predicate IsToken(epoch: nat, n: nat, next: nat, token: string) {
    1 <= n <= next && token == Token(epoch, n)
  }

  // Lease l has the token of acquire i.
  ghost predicate IsOrigin(epoch: nat, run: Run, i: nat, l: Lease)
    requires i < |run|
  {
    Won(epoch, run, i) && AnswerAt(epoch, run, i).token == l.token
  }

  // The leases of a table stand apart, and its counter numbers their tokens.
  ghost predicate Sound(epoch: nat, t: Table) { Distinct(t.leases) && Numbered(epoch, t.leases, t.next) }

  // ---- tokens ----

  lemma PrintHasNoDash(n: nat)
    ensures forall i :: 0 <= i < |Numerals.Print(n, 16)| ==> Numerals.Print(n, 16)[i] != '-'
  {
    Numerals.PrintReads(n, 16);
    var s := Numerals.Print(n, 16);
    forall i | 0 <= i < |s| ensures s[i] != '-' {
      assert Numerals.IsDigit(s[i], 16);
    }
  }

  // A token names one daemon run and one lease of it.
  lemma TokenNames(epoch: nat, id: nat, otherEpoch: nat, other: nat)
    requires Token(epoch, id) == Token(otherEpoch, other)
    ensures epoch == otherEpoch && id == other
  {
    var a, b := Numerals.Print(epoch, 16), Numerals.Print(otherEpoch, 16);
    var c, d := Numerals.Print(id, 16), Numerals.Print(other, 16);
    PrintHasNoDash(epoch);
    PrintHasNoDash(otherEpoch);
    assert Token(epoch, id) == a + "-" + c == b + "-" + d;
    assert (a + "-" + c)[|a|] == '-';
    assert (b + "-" + d)[|b|] == '-';
    assert |a| == |b|;
    assert a == (a + "-" + c)[..|a|] && b == (b + "-" + d)[..|b|];
    assert c == (a + "-" + c)[|a| + 1..] && d == (b + "-" + d)[|b| + 1..];
    Numerals.PrintInjective(epoch, otherEpoch, 16);
    Numerals.PrintInjective(id, other, 16);
  }

  // The token fits its 96 bytes while the counters are 64-bit values.
  lemma TokenFits(epoch: nat, id: nat)
    requires epoch < COUNTER_LIMIT && id < COUNTER_LIMIT
    ensures Component(Token(epoch, id), TOKEN_SIZE)
  {
    Numerals.PrintLength(epoch, 16, 16);
    Numerals.PrintLength(id, 16, 16);
  }

  lemma FreshToken(epoch: nat, ls: seq<Lease>, next: nat)
    requires Numbered(epoch, ls, next)
    ensures Fresh(ls, Token(epoch, next + 1))
  {
    forall l | l in ls ensures l.token != Token(epoch, next + 1) {
      var n: nat :| IsToken(epoch, n, next, l.token);
      if l.token == Token(epoch, next + 1) { TokenNames(epoch, n, epoch, next + 1); }
    }
  }

  lemma {:induction false} CountsUp(epoch: nat, run: Run, i: nat, k: nat)
    requires i <= k <= |run|
    ensures TableAt(epoch, run, i).next <= TableAt(epoch, run, k).next
  {
    if i < k { CountsUp(epoch, run, i, k - 1); }
  }

  // Acquire i got the token numbered by the table it found, and no later one gets it again.
  lemma WonToken(epoch: nat, run: Run, i: nat)
    requires i < |run| && Won(epoch, run, i)
    ensures AnswerAt(epoch, run, i) ==
            Answer(0, Token(epoch, TableAt(epoch, run, i).next + 1), Until(run[i].now, run[i].call.ttl))
    ensures TableAt(epoch, run, i + 1).next == TableAt(epoch, run, i).next + 1
    ensures Named(run[i].call.port, run[i].call.owner)
  {
  }

  lemma LaterToken(epoch: nat, run: Run, i: nat, k: nat)
    requires i < k <= |run| && Won(epoch, run, i)
    ensures AnswerAt(epoch, run, i).token != Token(epoch, TableAt(epoch, run, k).next + 1)
  {
    WonToken(epoch, run, i);
    CountsUp(epoch, run, i + 1, k);
    var mine, later := TableAt(epoch, run, i).next + 1, TableAt(epoch, run, k).next + 1;
    if Token(epoch, mine) == Token(epoch, later) {
      TokenNames(epoch, mine, epoch, later);
    }
  }

  // ---- the table invariant ----

  // The token of a successful renewal or release was in the table, unexpired, for the same port and owner.
  lemma SuccessFinds(epoch: nat, t: Table, e: Timed)
    requires (e.call.Renew? || e.call.Release?) && After(epoch, t, e).1.code == 0
    ensures exists l :: l in t.leases && l.expires > e.now && Fits(l, e.call.port, e.call.owner, e.call.token)
  {
    LiveIs(t.leases, e.now);
    var live := Live(t.leases, e.now);
    var i := FindLease(live, e.call.port, e.call.owner, e.call.token);
    assert live[i] in live;
  }

  // A lease in the table after a call was acquired by it, or has the token of one that was there before.
  lemma Source(epoch: nat, t: Table, e: Timed, l: Lease) returns (was: Option<Lease>)
    requires Sound(epoch, t) && l in After(epoch, t, e).0.leases
    ensures match was
            case Some(w) => w in t.leases && w.token == l.token
            case None => e.call.Acquire? && After(epoch, t, e).1.code == 0
                         && l.token == After(epoch, t, e).1.token == Token(epoch, t.next + 1)
  {
    FreshToken(epoch, t.leases, t.next);
    StepEffect(epoch, t, e);
    if l !in AddedBy(epoch, t, e, After(epoch, t, e).1.code) {
      was := Some(l);
    } else if e.call.Acquire? {
      was := None;
    } else {
      SuccessFinds(epoch, t, e);
      var w :| w in t.leases && w.token == e.call.token;
      was := Some(w);
    }
  }

  lemma StillKnown(epoch: nat, next: nat, later: nat, token: string)
    requires Known(epoch, next, token) && next <= later
    ensures Known(epoch, later, token)
  {
    var n :| IsToken(epoch, n, next, token);
    assert IsToken(epoch, n, later, token);
  }

  lemma CountsOne(epoch: nat, t: Table, e: Timed)
    ensures var (u, answer) := After(epoch, t, e);
      u.next == if e.call.Acquire? && answer.code == 0 then t.next + 1 else t.next
  {
  }

  lemma KnownStep(epoch: nat, t: Table, e: Timed, l: Lease)
    requires Sound(epoch, t) && l in After(epoch, t, e).0.leases
    ensures Known(epoch, After(epoch, t, e).0.next, l.token)
  {
    CountsOne(epoch, t, e);
    var was := Source(epoch, t, e, l);
    if was == None {
      assert IsToken(epoch, t.next + 1, t.next + 1, l.token);
    } else {
      StillKnown(epoch, t.next, After(epoch, t, e).0.next, was.value.token);
    }
  }

  lemma SoundStep(epoch: nat, t: Table, e: Timed)
    requires Sound(epoch, t)
    ensures Sound(epoch, After(epoch, t, e).0)
  {
    FreshToken(epoch, t.leases, t.next);
    StepEffect(epoch, t, e);
    var u := After(epoch, t, e).0;
    forall l | l in u.leases ensures Known(epoch, u.next, l.token) {
      KnownStep(epoch, t, e, l);
    }
  }

  lemma {:induction false} TableKeeps(epoch: nat, run: Run, k: nat)
    requires k <= |run|
    ensures var t := TableAt(epoch, run, k); Sound(epoch, t) && t.next <= k
  {
    if k > 0 {
      TableKeeps(epoch, run, k - 1);
      SoundStep(epoch, TableAt(epoch, run, k - 1), run[k - 1]);
      CountsOne(epoch, TableAt(epoch, run, k - 1), run[k - 1]);
    }
  }

  lemma SoundIsFresh(epoch: nat, t: Table)
    requires Sound(epoch, t)
    ensures Distinct(t.leases) && Fresh(t.leases, Token(epoch, t.next + 1))
  {
    FreshToken(epoch, t.leases, t.next);
  }

  // Every lease of a table was acquired in the run.
  lemma {:induction false} Origin(epoch: nat, run: Run, k: nat, l: Lease) returns (i: nat)
    requires k <= |run| && l in TableAt(epoch, run, k).leases
    ensures i < k && IsOrigin(epoch, run, i, l)
  {
    TableKeeps(epoch, run, k - 1);
    var was := Source(epoch, TableAt(epoch, run, k - 1), run[k - 1], l);
    if was == None {
      i := k - 1;
    } else {
      i := Origin(epoch, run, k - 1, was.value);
    }
  }

  // ---- acquires and the table ----

  // What call k of a run does to the table it finds.
  lemma RunStep(epoch: nat, run: Run, k: nat)
    requires k < |run|
    ensures var code := AnswerAt(epoch, run, k).code;
      Effect(TableAt(epoch, run, k).leases, run[k].now, TableAt(epoch, run, k + 1).leases,
             GoneBy(run[k], code), AddedBy(epoch, TableAt(epoch, run, k), run[k], code))
  {
    TableKeeps(epoch, run, k);
    SoundEffect(epoch, TableAt(epoch, run, k), run[k]);
  }

  lemma SoundEffect(epoch: nat, t: Table, e: Timed)
    requires Sound(epoch, t)
    ensures var (u, answer) := After(epoch, t, e);
      Effect(t.leases, e.now, u.leases, GoneBy(e, answer.code), AddedBy(epoch, t, e, answer.code))
  {
    SoundIsFresh(epoch, t);
    StepEffect(epoch, t, e);
  }

  lemma AgreeBegins(was: seq<Lease>, now: nat, ls: seq<Lease>, expires: nat, mine: Lease)
    requires Effect(was, now, ls, {}, {Extended(mine, expires)}) && Fresh(was, mine.token)
    ensures Agree(ls, now, Some(expires), mine)
  {
  }

  lemma WonAdds(epoch: nat, run: Run, i: nat)
    requires i < |run| && Won(epoch, run, i)
    ensures var mine, until := LeaseOf(epoch, run, i, 0), Until(run[i].now, run[i].call.ttl);
      && GoneBy(run[i], 0) == {} && AddedBy(epoch, TableAt(epoch, run, i), run[i], 0) == {Extended(mine, until)}
      && Told(epoch, run, i, i + 1) == Some(until)
      && mine.token == Token(epoch, TableAt(epoch, run, i).next + 1)
  {
    WonToken(epoch, run, i);
  }

  lemma LinkBegins(epoch: nat, run: Run, i: nat)
    requires i < |run| && Won(epoch, run, i)
    ensures Linked(epoch, run, i, i + 1)
  {
    TableKeeps(epoch, run, i);
    SoundIsFresh(epoch, TableAt(epoch, run, i));
    RunStep(epoch, run, i);
    WonAdds(epoch, run, i);
    AgreeBegins(TableAt(epoch, run, i).leases, run[i].now, TableAt(epoch, run, i + 1).leases,
                Until(run[i].now, run[i].call.ttl), LeaseOf(epoch, run, i, 0));
  }

  // Call k renewed or released the lease of acquire i.
  predicate Touches(epoch: nat, run: Run, i: nat, k: nat)
    requires i < k < |run|
  {
    && (run[k].call.Renew? || run[k].call.Release?) && AnswerAt(epoch, run, k).code == 0
    && run[k].call.token == AnswerAt(epoch, run, i).token
  }

  lemma AgreeTouched(was: seq<Lease>, clock: nat, now: nat, ls: seq<Lease>, added: set<Lease>,
                     told: Option<nat>, renewed: Option<nat>, mine: Lease)
    requires Agree(was, clock, told, mine) && Effect(was, now, ls, {mine.token}, added)
    requires added == if renewed == None then {} else {Extended(mine, renewed.value)}
    ensures Agree(ls, now, renewed, mine)
  {
  }

  // A call that touches the lease names its port and owner, and is answered with what it put in the table.
  lemma ToldTouched(epoch: nat, run: Run, i: nat, k: nat)
    requires i < k < |run| && Won(epoch, run, i) && Linked(epoch, run, i, k) && Touches(epoch, run, i, k)
    ensures var mine, told := LeaseOf(epoch, run, i, 0), Told(epoch, run, i, k + 1);
      && GoneBy(run[k], 0) == {mine.token}
      && AddedBy(epoch, TableAt(epoch, run, k), run[k], 0)
         == if told == None then {} else {Extended(mine, told.value)}
  {
    SuccessFinds(epoch, TableAt(epoch, run, k), run[k]);
  }

  lemma LinkTouched(epoch: nat, run: Run, i: nat, k: nat)
    requires i < k < |run| && Won(epoch, run, i) && Linked(epoch, run, i, k)
    requires Touches(epoch, run, i, k)
    ensures Linked(epoch, run, i, k + 1)
  {
    RunStep(epoch, run, k);
    ToldTouched(epoch, run, i, k);
    AgreeTouched(TableAt(epoch, run, k).leases, Clock(run, k), run[k].now, TableAt(epoch, run, k + 1).leases,
                 AddedBy(epoch, TableAt(epoch, run, k), run[k], 0), Told(epoch, run, i, k),
                 Told(epoch, run, i, k + 1), LeaseOf(epoch, run, i, 0));
  }

  lemma AgreeUntouched(was: seq<Lease>, clock: nat, now: nat, ls: seq<Lease>, gone: set<string>,
                       added: set<Lease>, told: Option<nat>, mine: Lease)
    requires Agree(was, clock, told, mine) && Effect(was, now, ls, gone, added) && clock <= now
    requires mine.token !in gone && forall l :: l in added ==> l.token != mine.token
    ensures Agree(ls, now, told, mine)
  {
  }

  // Any other call neither drops nor adds a lease with this token, and tells its caller nothing.
  lemma ToldUntouched(epoch: nat, run: Run, i: nat, k: nat)
    requires i < k < |run| && Won(epoch, run, i) && !Touches(epoch, run, i, k)
    ensures var code, token := AnswerAt(epoch, run, k).code, AnswerAt(epoch, run, i).token;
      && Told(epoch, run, i, k + 1) == Told(epoch, run, i, k) && token !in GoneBy(run[k], code)
      && forall l :: l in AddedBy(epoch, TableAt(epoch, run, k), run[k], code) ==> l.token != token
  {
    LaterToken(epoch, run, i, k);
  }

  lemma LinkUntouched(epoch: nat, run: Run, i: nat, k: nat)
    requires i < k < |run| && Won(epoch, run, i) && Ordered(run) && Linked(epoch, run, i, k)
    requires !Touches(epoch, run, i, k)
    ensures Linked(epoch, run, i, k + 1)
  {
    RunStep(epoch, run, k);
    ToldUntouched(epoch, run, i, k);
    var code := AnswerAt(epoch, run, k).code;
    AgreeUntouched(TableAt(epoch, run, k).leases, Clock(run, k), run[k].now, TableAt(epoch, run, k + 1).leases,
                   GoneBy(run[k], code), AddedBy(epoch, TableAt(epoch, run, k), run[k], code),
                   Told(epoch, run, i, k), LeaseOf(epoch, run, i, 0));
  }

  lemma {:induction false} LinkKeeps(epoch: nat, run: Run, i: nat, k: nat)
    requires i < k <= |run| && Won(epoch, run, i) && Ordered(run)
    ensures Linked(epoch, run, i, k)
    decreases k
  {
    if k == i + 1 {
      LinkBegins(epoch, run, i);
    } else {
      LinkKeeps(epoch, run, i, k - 1);
      if Touches(epoch, run, i, k - 1) {
        LinkTouched(epoch, run, i, k - 1);
      } else {
        LinkUntouched(epoch, run, i, k - 1);
      }
    }
  }

  // ---- the promises ----

  // What the table holds for the port at call k, once expired leases are dropped.
  lemma HolderInTable(epoch: nat, run: Run, i: nat, k: nat)
    requires i < k < |run| && Ordered(run) && Won(epoch, run, i) && Holds(epoch, run, i, k)
    ensures var live := Live(TableAt(epoch, run, k).leases, run[k].now);
      && Distinct(live)
      && LeaseOf(epoch, run, i, Told(epoch, run, i, k).value) in live
  {
    TableKeeps(epoch, run, k);
    LinkKeeps(epoch, run, i, k);
    LiveIs(TableAt(epoch, run, k).leases, run[k].now);
    LiveDistinct(TableAt(epoch, run, k).leases, run[k].now);
  }

  lemma OnlyOne(ls: seq<Lease>, l: Lease)
    requires Distinct(ls) && l in ls
    ensures FindPort(ls, l.port) < |ls| && ls[FindPort(ls, l.port)] == l
  {
    var b :| 0 <= b < |ls| && ls[b] == l;
    var f := FindPort(ls, l.port);
    assert f <= b;
  }

  lemma OnlyOneFits(ls: seq<Lease>, l: Lease, owner: string, token: string)
    requires Distinct(ls) && l in ls
    ensures FindLease(ls, l.port, owner, token) < |ls| <==> l.owner == owner && l.token == token
  {
    var b :| 0 <= b < |ls| && ls[b] == l;
    var f := FindLease(ls, l.port, owner, token);
  }

  // From a successful acquire until its release or its latest expiry, whatever the calls in between: any
  // acquire of the port is refused, and authorisation, renewal and release go to its owner alone.
  lemma Exclusion(epoch: nat, run: Run, i: nat, k: nat)
    requires i < k < |run| && Ordered(run) && Won(epoch, run, i) && Holds(epoch, run, i, k)
    requires run[k].call.port == run[i].call.port
    ensures var owner, token := run[i].call.owner, AnswerAt(epoch, run, i).token;
      var code := AnswerAt(epoch, run, k).code;
      match run[k].call
      case Acquire(port, other, ttl) => code == if Named(port, other) && GoodTtl(ttl) then -2 else -1
      case Authorize(_, who) => code == if who == Some(owner) then 0 else -1
      case Renew(_, other, shown, ttl) =>
        (code == 0 <==> other == owner && shown == token && Component(token, TOKEN_SIZE) && GoodTtl(ttl))
      case Release(_, other, shown) => (code == 0 <==> other == owner && shown == token)
  {
    HolderInTable(epoch, run, i, k);
    WonToken(epoch, run, i);
    var live := Live(TableAt(epoch, run, k).leases, run[k].now);
    var held := LeaseOf(epoch, run, i, Told(epoch, run, i, k).value);
    OnlyOne(live, held);
    match run[k].call
    case Renew(_, other, shown, _) => OnlyOneFits(live, held, other, shown);
    case Release(_, other, shown) => OnlyOneFits(live, held, other, shown);
    case _ =>
  }

  // Two leases of one port are never in force at once.
  lemma OneHolder(epoch: nat, run: Run, i: nat, j: nat, k: nat)
    requires i < k < |run| && j < k && Ordered(run) && Won(epoch, run, i) && Won(epoch, run, j)
    requires Holds(epoch, run, i, k) && Holds(epoch, run, j, k)
    requires run[i].call.port == run[j].call.port
    ensures i == j
  {
    HolderInTable(epoch, run, i, k);
    HolderInTable(epoch, run, j, k);
    var live := Live(TableAt(epoch, run, k).leases, run[k].now);
    OnlyOne(live, LeaseOf(epoch, run, i, Told(epoch, run, i, k).value));
    OnlyOne(live, LeaseOf(epoch, run, j, Told(epoch, run, j, k).value));
    WonToken(epoch, run, i);
    WonToken(epoch, run, j);
    if i < j { LaterToken(epoch, run, i, j); }
    if j < i { LaterToken(epoch, run, j, i); }
  }

  // The token of a lease that was released or has expired renews and releases nothing, ever.
  lemma StaleToken(epoch: nat, run: Run, i: nat, k: nat)
    requires i < k < |run| && Ordered(run) && Won(epoch, run, i) && !Holds(epoch, run, i, k)
    requires run[k].call.Renew? || run[k].call.Release?
    requires run[k].call.token == AnswerAt(epoch, run, i).token
    ensures AnswerAt(epoch, run, k).code != 0
  {
    LinkKeeps(epoch, run, i, k);
    if AnswerAt(epoch, run, k).code == 0 {
      SuccessFinds(epoch, TableAt(epoch, run, k), run[k]);
    }
  }

  // Nor does a token of another life of the daemon.
  lemma ForeignToken(epoch: nat, run: Run, k: nat, other: nat, id: nat)
    requires k < |run| && other != epoch
    requires run[k].call.Renew? || run[k].call.Release?
    requires run[k].call.token == Token(other, id)
    ensures AnswerAt(epoch, run, k).code != 0
  {
    TableKeeps(epoch, run, k);
    if AnswerAt(epoch, run, k).code == 0 {
      var t := TableAt(epoch, run, k);
      SuccessFinds(epoch, t, run[k]);
      var l :| l in t.leases && l.token == Token(other, id);
      assert Known(epoch, t.next, l.token);
      var n: nat :| IsToken(epoch, n, t.next, l.token);
      TokenNames(epoch, n, other, id);
    }
  }

  // The holder's own renewal succeeds, and extends the lease to the time it is told.
  lemma OwnRenewal(epoch: nat, run: Run, i: nat, k: nat)
    requires i < k < |run| < COUNTER_LIMIT && epoch < COUNTER_LIMIT
    requires Ordered(run) && Won(epoch, run, i) && Holds(epoch, run, i, k)
    requires run[k].call.Renew? && GoodTtl(run[k].call.ttl) && run[k].call.port == run[i].call.port
    requires run[k].call.owner == run[i].call.owner && run[k].call.token == AnswerAt(epoch, run, i).token
    ensures AnswerAt(epoch, run, k).code == 0
    ensures Told(epoch, run, i, k + 1) == Some(Until(run[k].now, run[k].call.ttl))
  {
    WonToken(epoch, run, i);
    TableKeeps(epoch, run, i);
    TokenFits(epoch, TableAt(epoch, run, i).next + 1);
    Exclusion(epoch, run, i, k);
  }

  // Where no lease is in force the port is free: everyone may use it, and a valid acquire succeeds.
  lemma FreePort(epoch: nat, run: Run, k: nat, port: string)
    requires k < |run| && Ordered(run) && run[k].call.port == port
    requires forall i: nat :: i < k && Won(epoch, run, i) && run[i].call.port == port ==> !Holds(epoch, run, i, k)
    ensures run[k].call.Authorize? ==> AnswerAt(epoch, run, k).code == 0
    ensures run[k].call.Acquire? && Named(port, run[k].call.owner) && GoodTtl(run[k].call.ttl) ==>
              Won(epoch, run, k)
  {
    var live := Live(TableAt(epoch, run, k).leases, run[k].now);
    if FindPort(live, port) < |live| {
      var i := InForce(epoch, run, k, port);
    }
  }

  // A port the table has an unexpired entry for has a lease in force.
  lemma InForce(epoch: nat, run: Run, k: nat, port: string) returns (i: nat)
    requires k < |run| && Ordered(run)
    requires var live := Live(TableAt(epoch, run, k).leases, run[k].now); FindPort(live, port) < |live|
    ensures i < k && Won(epoch, run, i) && run[i].call.port == port && Holds(epoch, run, i, k)
  {
    TableKeeps(epoch, run, k);
    var t := TableAt(epoch, run, k);
    var live := Live(t.leases, run[k].now);
    LiveIs(t.leases, run[k].now);
    var l := live[FindPort(live, port)];
    assert l in live && l in t.leases;
    i := Origin(epoch, run, k, l);
    LinkKeeps(epoch, run, i, k);
  }
}

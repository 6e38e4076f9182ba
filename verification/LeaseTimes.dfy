/** How long a lease lasts, from the times and the arguments of the calls alone (at-daemon/src/control.c:36-136). */
module LeaseTimes {
  import opened LeaseModel
  import opened LeaseRuns
  import opened Options

  // Call j gave the lease of acquire i its time: the acquire itself, or a renewal with its token that succeeded.
  predicate Grants(epoch: nat, run: Run, i: nat, j: nat)
    requires i <= j < |run| && Won(epoch, run, i)
  {
    j == i || (run[j].call.Renew? && Touches(epoch, run, i, j))
  }

  // Nor was it renewed or released between then and call k.
  ghost predicate LastGrant(epoch: nat, run: Run, i: nat, j: nat, k: nat)
    requires i <= j < k <= |run| && Won(epoch, run, i)
  {
    Grants(epoch, run, i, j) && forall m :: j < m < k ==> !Touches(epoch, run, i, m)
  }

  // The seconds that call j asked for are not over at the time of call k.
  predicate Lasts(run: Run, j: nat, k: nat)
    requires j < k < |run| && (run[j].call.Acquire? || run[j].call.Renew?)
  {
    run[k].now < run[j].now + 1000 * run[j].call.ttl
  }

  ghost predicate InTime(epoch: nat, run: Run, i: nat, j: nat, k: nat)
    requires i < k < |run| && Won(epoch, run, i)
  {
    i <= j < k && LastGrant(epoch, run, i, j, k) && Lasts(run, j, k)
  }

  predicate Sized(name: string) { 1 <= |name| <= 63 }

  predicate Timely(ttl: nat) { 1 <= ttl <= 300 }

  lemma {:induction false} ToldIsGranted(epoch: nat, run: Run, i: nat, j: nat, k: nat)
    requires i <= j < k <= |run| && Won(epoch, run, i) && LastGrant(epoch, run, i, j, k)
    ensures Told(epoch, run, i, k) == Some(run[j].now + 1000 * run[j].call.ttl)
    decreases k
  {
    if k == j + 1 {
      GrantTells(epoch, run, i, j);
    } else {
      assert !Touches(epoch, run, i, k - 1);
      ToldIsGranted(epoch, run, i, j, k - 1);
    }
  }

  lemma GrantTells(epoch: nat, run: Run, i: nat, j: nat)
    requires i <= j < |run| && Won(epoch, run, i) && Grants(epoch, run, i, j)
    ensures Told(epoch, run, i, j + 1) == Some(run[j].now + 1000 * run[j].call.ttl)
  {
    if j == i { WonToken(epoch, run, i); }
  }

  lemma {:induction false} GrantOf(epoch: nat, run: Run, i: nat, k: nat) returns (j: nat)
    requires i < k <= |run| && Won(epoch, run, i) && Told(epoch, run, i, k).Some?
    ensures i <= j < k && LastGrant(epoch, run, i, j, k)
    decreases k
  {
    if k == i + 1 {
      j := i;
    } else if Touches(epoch, run, i, k - 1) {
      j := k - 1;
    } else {
      j := GrantOf(epoch, run, i, k - 1);
    }
  }

  // A lease is in force exactly while its time lasts, counted from its latest grant.
  lemma HoldsInTime(epoch: nat, run: Run, i: nat, k: nat)
    requires i < k < |run| && Won(epoch, run, i)
    ensures Holds(epoch, run, i, k) <==> exists j :: InTime(epoch, run, i, j, k)
  {
    if Told(epoch, run, i, k).Some? {
      var j := GrantOf(epoch, run, i, k);
      ToldIsGranted(epoch, run, i, j, k);
      if Holds(epoch, run, i, k) { assert InTime(epoch, run, i, j, k); }
    }
    if j: nat :| InTime(epoch, run, i, j, k) {
      ToldIsGranted(epoch, run, i, j, k);
    }
  }

  predicate Shown(token: string) { 0 < |token| < 96 }

  // A call that fails says why, and only a successful acquire or renewal is told a time, an acquire a token.
  lemma Codes(epoch: nat, run: Run, k: nat)
    requires k < |run|
    ensures var a := AnswerAt(epoch, run, k);
      match run[k].call
      case Acquire(port, owner, ttl) =>
        if Sized(port) && Sized(owner) && Timely(ttl)
        then if a.code == 0 then a.expires == run[k].now + 1000 * ttl else a == Answer(-2, "", 0)
        else a == Answer(-1, "", 0)
      case Renew(port, owner, shown, ttl) =>
        if Sized(port) && Sized(owner) && Shown(shown) && Timely(ttl)
        then if a.code == 0 then a == Answer(0, "", run[k].now + 1000 * ttl) else a == Answer(-2, "", 0)
        else a == Answer(-1, "", 0)
      case _ => a == Answer(if a.code == 0 then 0 else -1, "", 0)
  {
  }

  // For the seconds asked for, unless it is renewed or released: every other acquire of the port is refused,
  // everyone but the owner is turned away, and only the owner with the token may renew or release.
  lemma KeptForItsTime(epoch: nat, run: Run, i: nat, j: nat, k: nat)
    requires i < k < |run| && Ordered(run) && Won(epoch, run, i) && InTime(epoch, run, i, j, k)
    requires run[k].call.port == run[i].call.port
    ensures var owner, token := run[i].call.owner, AnswerAt(epoch, run, i).token;
      var code := AnswerAt(epoch, run, k).code;
      match run[k].call
      case Acquire(port, other, ttl) => code == if Sized(other) && Timely(ttl) then -2 else -1
      case Authorize(_, who) => code == if who == Some(owner) then 0 else -1
      case Renew(_, other, shown, ttl) =>
        code == if !Sized(other) || !Shown(shown) || !Timely(ttl) then -1
                else if other == owner && shown == token then 0 else -2
      case Release(_, other, shown) => code == if other == owner && shown == token then 0 else -1
  {
    HoldsInTime(epoch, run, i, k);
    Codes(epoch, run, k);
    WonToken(epoch, run, i);
    Exclusion(epoch, run, i, k);
  }

  // From the end of the last such time on, or after the release, the port is free.
  lemma FreeAfterItsTime(epoch: nat, run: Run, k: nat)
    requires k < |run| && Ordered(run)
    requires forall i: nat, j: nat ::
               i < k && Won(epoch, run, i) && run[i].call.port == run[k].call.port ==> !InTime(epoch, run, i, j, k)
    ensures var code := AnswerAt(epoch, run, k).code;
      match run[k].call
      case Acquire(port, owner, ttl) => code == if Sized(port) && Sized(owner) && Timely(ttl) then 0 else -1
      case Authorize(_, _) => code == 0
      case Renew(port, owner, shown, ttl) =>
        code == if Sized(port) && Sized(owner) && Shown(shown) && Timely(ttl) then -2 else -1
      case Release(_, _, _) => code == -1
  {
    Codes(epoch, run, k);
    forall i: nat | i < k && Won(epoch, run, i) && run[i].call.port == run[k].call.port
      ensures !Holds(epoch, run, i, k)
    {
      HoldsInTime(epoch, run, i, k);
    }
    FreePort(epoch, run, k, run[k].call.port);
    if (run[k].call.Renew? || run[k].call.Release?) && AnswerAt(epoch, run, k).code == 0 {
      FoundInForce(epoch, run, k);
    }
  }

  // A renewal or release that succeeds has found a lease in force.
  lemma FoundInForce(epoch: nat, run: Run, k: nat)
    requires k < |run| && Ordered(run) && (run[k].call.Renew? || run[k].call.Release?)
    requires AnswerAt(epoch, run, k).code == 0
    ensures exists i: nat ::
              i < k && Won(epoch, run, i) && run[i].call.port == run[k].call.port && Holds(epoch, run, i, k)
  {
    var t := TableAt(epoch, run, k);
    SuccessFinds(epoch, t, run[k]);
    var live := Live(t.leases, run[k].now);
    LiveIs(t.leases, run[k].now);
    var l :| l in t.leases && l.expires > run[k].now && l.port == run[k].call.port;
    assert l in live && exists n :: 0 <= n < |live| && live[n] == l;
    var i := InForce(epoch, run, k, run[k].call.port);
  }
}

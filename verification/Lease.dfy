/** The lease table as the daemon edits it (at-daemon/src/control.c:12-136). */
module LeaseCode {
  import opened LeaseModel
  import opened Options

  // Removing an expired lease, or passing a live one, changes nothing of what is live.
  lemma {:induction false} LiveAppend(a: seq<Lease>, b: seq<Lease>, now: nat)
    ensures Live(a + b, now) == Live(a, now) + Live(b, now)
  {
    if a == [] {
      assert a + b == b;
    } else {
      assert (a + b)[1..] == a[1..] + b;
      LiveAppend(a[1..], b, now);
    }
  }

  lemma LiveDrop(ls: seq<Lease>, i: nat, now: nat)
    requires i < |ls| && ls[i].expires <= now
    ensures Live(ls[..i] + ls[i + 1..], now) == Live(ls, now)
  {
    assert ls == ls[..i] + ls[i..];
    LiveAppend(ls[..i], ls[i..], now);
    LiveAppend(ls[..i], ls[i + 1..], now);
  }

  lemma {:induction false} AllLive(ls: seq<Lease>, now: nat)
    requires forall j :: 0 <= j < |ls| ==> ls[j].expires > now
    ensures Live(ls, now) == ls
  {
    if ls != [] { AllLive(ls[1..], now); }
  }

  // The first position that answers a search is the one the search function names.
  lemma {:induction false} FirstPort(ls: seq<Lease>, i: nat, port: string)
    requires i <= |ls| && (i < |ls| ==> ls[i].port == port)
    requires forall j :: 0 <= j < i ==> ls[j].port != port
    ensures FindPort(ls, port) == i
  {
    if i > 0 { FirstPort(ls[1..], i - 1, port); }
  }

  lemma {:induction false} FirstLease(ls: seq<Lease>, i: nat, port: string, owner: string, token: string)
    requires i <= |ls| && (i < |ls| ==> Fits(ls[i], port, owner, token))
    requires forall j :: 0 <= j < i ==> !Fits(ls[j], port, owner, token)
    ensures FindLease(ls, port, owner, token) == i
  {
    if i > 0 { FirstLease(ls[1..], i - 1, port, owner, token); }
  }

  class LeaseTable {
    const epoch: nat
    var leases: seq<Lease>
    var next: nat

    function Contents(): Table
      reads this
    {
      Table(leases, next)
    }

    constructor (epoch: nat)
      ensures Contents() == EMPTY && this.epoch == epoch
    {
      this.epoch := epoch;
      leases, next := [], 0;
    }

    method ExpireLeases(now: nat)
      modifies `leases
      ensures leases == Live(old(leases), now)
    {
      var cursor := 0;
      while cursor < |leases|
        invariant cursor <= |leases|
        invariant forall j :: 0 <= j < cursor ==> leases[j].expires > now
        invariant Live(leases, now) == Live(old(leases), now)
        decreases |leases| - cursor
      {
        if leases[cursor].expires <= now {
          LiveDrop(leases, cursor, now);
          leases := leases[..cursor] + leases[cursor + 1..];
        } else {
          cursor := cursor + 1;
        }
      }
      AllLive(leases, now);
    }

    method SeekPort(port: string) returns (i: nat)
      ensures i == FindPort(leases, port)
    {
      i := 0;
      while i < |leases| && leases[i].port != port
        invariant i <= |leases|
        invariant forall j :: 0 <= j < i ==> leases[j].port != port
      {
        i := i + 1;
      }
      FirstPort(leases, i, port);
    }

    method SeekLease(port: string, owner: string, token: string) returns (i: nat)
      ensures i == FindLease(leases, port, owner, token)
    {
      i := 0;
      while i < |leases| && !Fits(leases[i], port, owner, token)
        invariant i <= |leases|
        invariant forall j :: 0 <= j < i ==> !Fits(leases[j], port, owner, token)
      {
        i := i + 1;
      }
      FirstLease(leases, i, port, owner, token);
    }

    method Acquire(now: nat, port: string, owner: string, ttl: nat) returns (answer: Answer)
      modifies this
      ensures (Contents(), answer) == After(epoch, old(Contents()), Timed(now, Call.Acquire(port, owner, ttl)))
    {
      if !Component(port, NAME_SIZE) || !Component(owner, NAME_SIZE) || ttl < 1 || ttl > 300 {
        return Answer(-1, "", 0);
      }
      ExpireLeases(now);
      var i := SeekPort(port);
      if i < |leases| {
        return Answer(-2, "", 0);
      }
      next := next + 1;
      var lease := Lease(port, owner, Token(epoch, next), Until(now, ttl));
      leases := [lease] + leases;
      answer := Answer(0, lease.token, lease.expires);
    }

    method Renew(now: nat, port: string, owner: string, token: string, ttl: nat) returns (answer: Answer)
      modifies this
      ensures (Contents(), answer) == After(epoch, old(Contents()), Timed(now, Call.Renew(port, owner, token, ttl)))
    {
      if !Component(port, NAME_SIZE) || !Component(owner, NAME_SIZE) || !Component(token, TOKEN_SIZE)
         || ttl < 1 || ttl > 300
      {
        return Answer(-1, "", 0);
      }
      ExpireLeases(now);
      var i := SeekLease(port, owner, token);
      if i < |leases| {
        leases := leases[i := Extended(leases[i], Until(now, ttl))];
        return Answer(0, "", leases[i].expires);
      }
      answer := Answer(-2, "", 0);
    }

    method Release(now: nat, port: string, owner: string, token: string) returns (answer: Answer)
      modifies this
      ensures (Contents(), answer) == After(epoch, old(Contents()), Timed(now, Call.Release(port, owner, token)))
    {
      ExpireLeases(now);
      var i := SeekLease(port, owner, token);
      if i < |leases| {
        leases := leases[..i] + leases[i + 1..];
        return Answer(0, "", 0);
      }
      answer := Answer(-1, "", 0);
    }

    method Authorize(now: nat, port: string, who: Option<string>) returns (answer: Answer)
      modifies this
      ensures (Contents(), answer) == After(epoch, old(Contents()), Timed(now, Call.Authorize(port, who)))
    {
      answer := Answer(0, "", 0);
      ExpireLeases(now);
      var i := SeekPort(port);
      if i < |leases| {
        answer := Answer(if who.Some? && leases[i].owner == who.value then 0 else -1, "", 0);
      }
    }
  }
}

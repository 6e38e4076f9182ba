/** What the proxy promises its clients, over every run (fibocom-dial/src/fibo_qmimsg_server.c:549-578, 630-727). */
module ProxyTheorems {
  import opened ProxyModel

  // The descriptors accepted so far.
  function Accepted(run: seq<Event>): set<nat> {
    if run == [] then {}
    else
      var e := run[|run| - 1];
      Accepted(run[..|run| - 1]) + if e.Accept? then {e.fd} else {}
  }

  // Open descriptors are distinct and fit the byte they are kept in, requests come from accepted clients,
  // no client disconnects and the device sends no control indication.
  predicate Orderly(run: seq<Event>) {
    run == [] ||
    var before := run[..|run| - 1];
    Orderly(before) &&
    match run[|run| - 1]
    case Accept(fd) => fd < 256 && fd !in Accepted(before)
    case Ask(q) => q.fd in Accepted(before)
    case Answer(_) => true
    case Indication => false
    case Data(_) => true
    case Hangup(_) => false
  }

  // The control dialogue by itself: who asked what, and the answers that found a question open.
  datatype Dialogue = Dialogue(asked: seq<Request>, answered: seq<Reply>)

  function Talk(run: seq<Event>): (d: Dialogue)
    ensures |d.answered| <= |d.asked|
  {
    if run == [] then Dialogue([], [])
    else
      var d := Talk(run[..|run| - 1]);
      match run[|run| - 1]
      case Ask(q) => Dialogue(d.asked + [q], d.answered)
      case Answer(r) => if |d.answered| < |d.asked| then Dialogue(d.asked, d.answered + [r]) else d
      case _ => d
  }

  // What one client has been granted after the first n answers, from its own questions alone.
  function Granted(d: Dialogue, fd: Descriptor, n: nat): seq<Client>
    requires n <= |d.answered| <= |d.asked|
  {
    if n == 0 then []
    else if d.asked[n - 1].fd == fd then Booked(Granted(d, fd, n - 1), d.answered[n - 1])
    else Granted(d, fd, n - 1)
  }

  // Exactly one connection for each accepted descriptor.
  ghost predicate Tidy(cs: seq<Connection>, fds: set<nat>) {
    && (forall i, j :: 0 <= i < j < |cs| ==> cs[i].fd != cs[j].fd)
    && (forall i :: 0 <= i < |cs| ==> cs[i].fd in fds)
    && (forall fd :: fd in fds ==> fd < 256 && exists i :: IsAt(cs, fd, i))
  }

  ghost predicate IsAt(cs: seq<Connection>, fd: Descriptor, i: int) {
    0 <= i < |cs| && cs[i].fd == fd
  }

  ghost predicate Routed(s: Server, d: Dialogue) {
    var n := |d.answered|;
    && n <= |d.asked|
    && s.control == d.asked[n..]
    && s.wire == d.asked[..if n < |d.asked| then n + 1 else n]
    && |s.replies| == n
    && forall i :: 0 <= i < n ==> s.replies[i] == Delivery(d.asked[i].fd, d.answered[i])
  }

  ghost predicate Booking(cs: seq<Connection>, d: Dialogue)
    requires |d.answered| <= |d.asked|
  {
    forall i :: 0 <= i < |cs| ==> cs[i].clients == Granted(d, cs[i].fd, |d.answered|)
  }

  lemma {:induction false} NoCopies<T>(cs: seq<Connection>, fd: Descriptor, what: T)
    requires forall i :: 0 <= i < |cs| ==> cs[i].fd != fd
    ensures Copies(cs, fd, what) == []
  {
    if cs != [] { NoCopies(cs[1..], fd, what); }
  }

  // With distinct descriptors exactly one connection is written to.
  lemma {:induction false} OneCopy<T>(cs: seq<Connection>, fd: Descriptor, what: T, i: nat)
    requires i < |cs| && cs[i].fd == fd
    requires forall i, j :: 0 <= i < j < |cs| ==> cs[i].fd != cs[j].fd
    ensures Copies(cs, fd, what) == [what]
  {
    if i == 0 {
      NoCopies(cs[1..], fd, what);
    } else {
      OneCopy(cs[1..], fd, what, i - 1);
    }
  }

  lemma {:induction false} ServedEach(cs: seq<Connection>, fd: Descriptor, r: Reply)
    ensures |Serve(cs, fd, r)| == |cs|
    ensures forall i :: 0 <= i < |cs| ==>
              Serve(cs, fd, r)[i] == if cs[i].fd == fd then Connection(fd, Booked(cs[i].clients, r)) else cs[i]
  {
    if cs != [] { ServedEach(cs[1..], fd, r); }
  }

  ghost predicate Inv(s: Server, fds: set<nat>, d: Dialogue) {
    && Tidy(s.connections, fds) && Routed(s, d) && Booking(s.connections, d)
    && forall i :: 0 <= i < |d.asked| ==> d.asked[i].fd in fds
  }

  lemma AcceptKeeps(s: Server, fds: set<nat>, d: Dialogue, fd: Descriptor)
    requires Inv(s, fds, d) && fd < 256 && fd !in fds
    ensures Inv(Step(s, Accept(fd)), fds + {fd}, d)
  {
    AcceptTidy(s.connections, fds, fd);
    AcceptBooking(s.connections, fds, d, fd);
    assert Step(s, Accept(fd)).connections == s.connections + [Connection(fd, [])];
  }

  lemma AcceptBooking(cs: seq<Connection>, fds: set<nat>, d: Dialogue, fd: Descriptor)
    requires |d.answered| <= |d.asked| && Booking(cs, d) && fd !in fds
    requires forall i :: 0 <= i < |d.asked| ==> d.asked[i].fd in fds
    ensures Booking(cs + [Connection(fd, [])], d)
  {
    GrantsNothing(d, fd, fds, |d.answered|);
  }

  lemma AcceptTidy(cs: seq<Connection>, fds: set<nat>, fd: Descriptor)
    requires Tidy(cs, fds) && fd !in fds
    ensures Tidy(cs + [Connection(fd, [])], fds + {fd})
  {
    var more := cs + [Connection(fd, [])];
    assert IsAt(more, fd, |cs|);
    forall x | x in fds ensures exists i :: IsAt(more, x, i) {
      var i :| IsAt(cs, x, i);
      assert IsAt(more, x, i);
    }
  }

  // A descriptor that has not asked has nothing.
  lemma {:induction false} GrantsNothing(d: Dialogue, fd: Descriptor, fds: set<nat>, n: nat)
    requires n <= |d.answered| <= |d.asked| && fd !in fds
    requires forall i :: 0 <= i < |d.asked| ==> d.asked[i].fd in fds
    ensures Granted(d, fd, n) == []
  {
    if n > 0 { GrantsNothing(d, fd, fds, n - 1); }
  }

  // More questions or answers leave what was granted before as it was.
  lemma {:induction false} GrantedSame(d: Dialogue, e: Dialogue, fd: Descriptor, n: nat)
    requires n <= |d.answered| <= |d.asked| && n <= |e.answered| <= |e.asked|
    requires d.asked[..n] == e.asked[..n] && d.answered[..n] == e.answered[..n]
    ensures Granted(d, fd, n) == Granted(e, fd, n)
  {
    if n > 0 {
      assert d.asked[n - 1] == d.asked[..n][n - 1] == e.asked[n - 1];
      assert d.answered[n - 1] == d.answered[..n][n - 1] == e.answered[n - 1];
      assert d.asked[..n - 1] == d.asked[..n][..n - 1] && e.asked[..n - 1] == e.asked[..n][..n - 1];
      assert d.answered[..n - 1] == d.answered[..n][..n - 1] && e.answered[..n - 1] == e.answered[..n][..n - 1];
      GrantedSame(d, e, fd, n - 1);
    }
  }

  lemma AskBooks(cs: seq<Connection>, d: Dialogue, e: Dialogue)
    requires |d.answered| <= |d.asked| <= |e.asked| && e.answered == d.answered
    requires e.asked[..|d.asked|] == d.asked && Booking(cs, d)
    ensures Booking(cs, e)
  {
    var n := |d.answered|;
    assert e.asked[..n] == e.asked[..|d.asked|][..n];
    forall i | 0 <= i < |cs| ensures cs[i].clients == Granted(e, cs[i].fd, n) {
      GrantedSame(d, e, cs[i].fd, n);
    }
  }

  function Asked(d: Dialogue, q: Request): Dialogue { Dialogue(d.asked + [q], d.answered) }

  lemma AskRoutes(s: Server, d: Dialogue, q: Request)
    requires Routed(s, d)
    ensures Routed(Enqueue(s, q), Asked(d, q))
  {
  }

  lemma AskedIn(d: Dialogue, fds: set<nat>, q: Request)
    requires q.fd in fds && forall i :: 0 <= i < |d.asked| ==> d.asked[i].fd in fds
    ensures forall i :: 0 <= i < |Asked(d, q).asked| ==> Asked(d, q).asked[i].fd in fds
  {
  }

  lemma AskKeeps(s: Server, fds: set<nat>, d: Dialogue, q: Request)
    requires Inv(s, fds, d) && q.fd in fds
    ensures Inv(Step(s, Ask(q)), fds, Asked(d, q))
  {
    AskRoutes(s, d, q);
    AskBooks(s.connections, d, Asked(d, q));
    AskedIn(d, fds, q);
  }

  lemma ServeTidy(cs: seq<Connection>, fds: set<nat>, fd: Descriptor, r: Reply)
    requires Tidy(cs, fds)
    ensures Tidy(Serve(cs, fd, r), fds)
  {
    ServedEach(cs, fd, r);
    forall x | x in fds ensures exists i :: IsAt(Serve(cs, fd, r), x, i) {
      var i :| IsAt(cs, x, i);
      assert IsAt(Serve(cs, fd, r), x, i);
    }
  }

  function Answered(d: Dialogue, r: Reply): Dialogue { Dialogue(d.asked, d.answered + [r]) }

  lemma ServeBooks(cs: seq<Connection>, d: Dialogue, r: Reply)
    requires |d.answered| < |d.asked| && Booking(cs, d)
    ensures Booking(Serve(cs, d.asked[|d.answered|].fd, r), Answered(d, r))
  {
    var n, e := |d.answered|, Answered(d, r);
    ServedEach(cs, d.asked[n].fd, r);
    assert e.answered[..n] == d.answered;
    forall i | 0 <= i < |cs| ensures Serve(cs, d.asked[n].fd, r)[i].clients == Granted(e, cs[i].fd, n + 1) {
      GrantedSame(d, e, cs[i].fd, n);
    }
  }

  // The answer is out and the queue is one shorter; the next question is not written yet.
  ghost predicate Settled(s: Server, d: Dialogue) {
    var n := |d.answered|;
    && n <= |d.asked|
    && s.control == d.asked[n..] && s.wire == d.asked[..n] && |s.replies| == n
    && forall i :: 0 <= i < n ==> s.replies[i] == Delivery(d.asked[i].fd, d.answered[i])
  }

  lemma SettleRoutes(s: Server, fds: set<nat>, d: Dialogue, r: Reply)
    requires Tidy(s.connections, fds) && Routed(s, d) && |d.answered| < |d.asked|
    requires d.asked[|d.answered|].fd in fds
    ensures Settled(Settle(s, r), Answered(d, r))
  {
    var fd := d.asked[|d.answered|].fd;
    assert s.control[0] == d.asked[|d.answered|];
    var i :| IsAt(s.connections, fd, i);
    OneCopy(s.connections, fd, Delivery(fd, r), i);
  }

  lemma ResendRoutes(s: Server, fds: set<nat>, d: Dialogue)
    requires Tidy(s.connections, fds) && Settled(s, d)
    requires forall i :: 0 <= i < |d.asked| ==> d.asked[i].fd in fds
    ensures Routed(Resend(s), d)
  {
    if s.control != [] {
      assert s.control[0] == d.asked[|d.answered|];
      var i :| IsAt(s.connections, s.control[0].fd, i);
      OneCopy(s.connections, s.control[0].fd, s.control[0], i);
    }
  }

  lemma AnswerKeeps(s: Server, fds: set<nat>, d: Dialogue, r: Reply)
    requires Inv(s, fds, d)
    ensures Inv(Step(s, Answer(r)), fds, if |d.answered| < |d.asked| then Answered(d, r) else d)
  {
    if |d.answered| < |d.asked| {
      var fd := d.asked[|d.answered|].fd;
      assert s.control[0] == d.asked[|d.answered|];
      ServeTidy(s.connections, fds, fd, r);
      ServeBooks(s.connections, d, r);
      SettleRoutes(s, fds, d, r);
      ResendRoutes(Settle(s, r), fds, Answered(d, r));
    }
  }

  lemma {:induction false} RunInv(run: seq<Event>)
    requires Orderly(run)
    ensures Inv(Run(run), Accepted(run), Talk(run))
  {
    if run != [] {
      var before := run[..|run| - 1];
      RunInv(before);
      var s, fds, d := Run(before), Accepted(before), Talk(before);
      match run[|run| - 1]
      case Accept(fd) => AcceptKeeps(s, fds, d, fd);
      case Ask(q) => AskKeeps(s, fds, d, q);
      case Answer(r) => AnswerKeeps(s, fds, d, r);
      case Data(_) =>
    }
  }

  // ---- the promises ----

  // Exactly one control request is outstanding while the queue is non-empty, and it is the queue's head.
  lemma OneOutstanding(run: seq<Event>)
    requires Orderly(run)
    ensures var s := Run(run);
      && |s.wire| == |s.replies| + (if s.control == [] then 0 else 1)
      && (s.control != [] ==> s.wire[|s.replies|] == s.control[0])
  {
    RunInv(run);
  }

  // The n-th answer that finds a question open goes to the client that asked the n-th question, and only
  // there; the device was asked the questions in that order.
  lemma NthAnswer(run: seq<Event>, n: nat)
    requires Orderly(run) && n < |Talk(run).answered|
    ensures var s, d := Run(run), Talk(run);
      && |s.replies| == |d.answered| && s.replies[n] == Delivery(d.asked[n].fd, d.answered[n])
      && n < |s.wire| && s.wire[n] == d.asked[n]
      && s.control == d.asked[|d.answered|..]
  {
    RunInv(run);
  }

  // Successful allocations, or releases, among the first n answers to one client.
  function Counted(d: Dialogue, fd: Descriptor, n: nat, kind: Kind): multiset<Client>
    requires n <= |d.answered| <= |d.asked|
  {
    if n == 0 then multiset{}
    else
      var r := d.answered[n - 1];
      Counted(d, fd, n - 1, kind)
        + if d.asked[n - 1].fd == fd && r.ok && r.kind == kind then multiset{r.client} else multiset{}
  }

  // The modem confirms a release only of an id that the client holds at that moment.
  ghost predicate Honest(d: Dialogue, fd: Descriptor, n: nat)
    requires n <= |d.answered| <= |d.asked|
  {
    forall i :: 0 <= i < n ==> !Strays(d, fd, i)
  }

  // Answer i confirms to the client the release of an id that it does not hold.
  ghost predicate Strays(d: Dialogue, fd: Descriptor, i: nat)
    requires i < |d.answered| <= |d.asked|
  {
    && d.asked[i].fd == fd && d.answered[i].ok && d.answered[i].kind == ReleaseClientId
    && d.answered[i].client !in Granted(d, fd, i)
  }

  lemma GetBalance(held: seq<Client>, got: multiset<Client>, freed: multiset<Client>, r: Reply)
    requires r.ok && r.kind == GetClientId && multiset(held) + freed == got
    ensures multiset(Booked(held, r)) + freed == got + multiset{r.client}
  {
  }

  lemma ReleaseBalance(held: seq<Client>, got: multiset<Client>, freed: multiset<Client>, r: Reply)
    requires r.ok && r.kind == ReleaseClientId && r.client in held && multiset(held) + freed == got
    ensures multiset(Booked(held, r)) + (freed + multiset{r.client}) == got
  {
    assert r.client in multiset(held);
    assert multiset(held) - multiset{r.client} + multiset{r.client} == multiset(held);
  }

  lemma {:induction false} GrantedBalance(d: Dialogue, fd: Descriptor, n: nat)
    requires n <= |d.answered| <= |d.asked| && Honest(d, fd, n)
    ensures multiset(Granted(d, fd, n)) + Counted(d, fd, n, ReleaseClientId) == Counted(d, fd, n, GetClientId)
  {
    if n > 0 {
      GrantedBalance(d, fd, n - 1);
      var r := d.answered[n - 1];
      var held, got := Granted(d, fd, n - 1), Counted(d, fd, n - 1, GetClientId);
      var freed := Counted(d, fd, n - 1, ReleaseClientId);
      if d.asked[n - 1].fd == fd && r.ok && r.kind == GetClientId {
        GetBalance(held, got, freed, r);
      } else if d.asked[n - 1].fd == fd && r.ok && r.kind == ReleaseClientId {
        assert !Strays(d, fd, n - 1);
        ReleaseBalance(held, got, freed, r);
      }
    }
  }

  // How many answers up to the n-th stray.
  ghost function Stray(d: Dialogue, fd: Descriptor, n: nat): nat
    requires n <= |d.answered| <= |d.asked|
  {
    if n == 0 then 0 else Stray(d, fd, n - 1) + if Strays(d, fd, n - 1) then 1 else 0
  }

  lemma {:induction false} StrayMeansDishonest(d: Dialogue, fd: Descriptor, n: nat)
    requires n <= |d.answered| <= |d.asked|
    ensures Stray(d, fd, n) == 0 <==> Honest(d, fd, n)
  {
    if n > 0 { StrayMeansDishonest(d, fd, n - 1); }
  }

  lemma WithoutSize(clients: seq<Client>, c: Client)
    ensures |Without(clients, c)| == |clients| - if c in clients then 1 else 0
  {
    var m := multiset(clients);
    assert |multiset(Without(clients, c))| == |Without(clients, c)| && |m| == |clients|;
    if c in clients {
      assert c in m && m == m - multiset{c} + multiset{c};
    } else {
      assert c !in m && m - multiset{c} == m;
    }
  }

  // What one answer to the client does to the sizes of its table, its allocations and its releases.
  lemma SizeStep(d: Dialogue, fd: Descriptor, n: nat)
    requires 0 < n <= |d.answered| <= |d.asked|
    ensures var r := d.answered[n - 1];
      var mine := d.asked[n - 1].fd == fd && r.ok;
      && |Counted(d, fd, n, GetClientId)|
           == |Counted(d, fd, n - 1, GetClientId)| + (if mine && r.kind == GetClientId then 1 else 0)
      && |Counted(d, fd, n, ReleaseClientId)|
           == |Counted(d, fd, n - 1, ReleaseClientId)| + (if mine && r.kind == ReleaseClientId then 1 else 0)
  {
  }

  lemma TableStep(d: Dialogue, fd: Descriptor, n: nat)
    requires 0 < n <= |d.answered| <= |d.asked|
    ensures var r, held := d.answered[n - 1], Granted(d, fd, n - 1);
      var mine := d.asked[n - 1].fd == fd && r.ok;
      |Granted(d, fd, n)| == |held| + (if mine && r.kind == GetClientId then 1 else 0)
                                    - (if mine && r.kind == ReleaseClientId && r.client in held then 1 else 0)
  {
    WithoutSize(Granted(d, fd, n - 1), d.answered[n - 1].client);
  }

  // A stray answer adds a release and takes nothing from the table.
  lemma {:induction false} SizeBalance(d: Dialogue, fd: Descriptor, n: nat)
    requires n <= |d.answered| <= |d.asked|
    ensures |Granted(d, fd, n)| + |Counted(d, fd, n, ReleaseClientId)|
         == |Counted(d, fd, n, GetClientId)| + Stray(d, fd, n)
  {
    if n > 0 {
      SizeBalance(d, fd, n - 1);
      SizeStep(d, fd, n);
      TableStep(d, fd, n);
    }
  }

  // The table and the releases make up the allocations exactly as long as the modem is honest.
  lemma BalanceExact(d: Dialogue, fd: Descriptor, n: nat)
    requires n <= |d.answered| <= |d.asked|
    ensures multiset(Granted(d, fd, n)) + Counted(d, fd, n, ReleaseClientId) == Counted(d, fd, n, GetClientId)
       <==> Honest(d, fd, n)
  {
    var held, freed := multiset(Granted(d, fd, n)), Counted(d, fd, n, ReleaseClientId);
    if Honest(d, fd, n) {
      GrantedBalance(d, fd, n);
    } else {
      StrayMeansDishonest(d, fd, n);
      SizeBalance(d, fd, n);
      assert |held + freed| == |held| + |freed| && |held| == |Granted(d, fd, n)|;
    }
  }

  // Each client's id table with its successful releases is its successful allocations, whatever the other
  // clients do in between, if and only if every release that the modem confirmed to it was of an id it held.
  lemma TablesBalance(run: seq<Event>, i: nat)
    requires Orderly(run) && i < |Run(run).connections|
    ensures var d, c := Talk(run), Run(run).connections[i];
      var n := |d.answered|;
      && c.clients == Granted(d, c.fd, n)
      && (multiset(c.clients) + Counted(d, c.fd, n, ReleaseClientId) == Counted(d, c.fd, n, GetClientId)
          <==> Honest(d, c.fd, n))
  {
    RunInv(run);
    var d := Talk(run);
    BalanceExact(d, Run(run).connections[i].fd, |d.answered|);
  }

  // A client that asks while nothing is outstanding, and its answer.
  lemma AskAndAnswer(run: seq<Event>, q: Request, r: Reply) returns (longer: seq<Event>)
    requires Orderly(run) && q.fd in Accepted(run) && |Talk(run).answered| == |Talk(run).asked|
    ensures longer == run + [Ask(q), Answer(r)]
    ensures Orderly(longer) && Accepted(longer) == Accepted(run)
    ensures Talk(longer) == Dialogue(Talk(run).asked + [q], Talk(run).answered + [r])
  {
    var asked := run + [Ask(q)];
    longer := run + [Ask(q), Answer(r)];
    assert asked[..|run|] == run && longer[..|asked|] == asked;
  }

  // The balance can fail: a client that releases an id it does not hold, is told that it worked, and is
  // then given that id, holds it, though the id was granted once and released once.
  lemma BalanceFails(fd: Descriptor, q: Request, c: Client) returns (run: seq<Event>)
    requires q.fd == fd
    ensures Orderly(run) && |Talk(run).answered| == 2
    ensures var d := Talk(run);
      && Granted(d, fd, 2) == [c]
      && Counted(d, fd, 2, GetClientId) == Counted(d, fd, 2, ReleaseClientId) == multiset{c}
  {
    var out, back := Reply(ReleaseClientId, true, c, q.body), Reply(GetClientId, true, c, q.body);
    assert [Accept(fd)][..0] == [];
    run := AskAndAnswer([Accept(fd)], q, out);
    run := AskAndAnswer(run, q, back);
    StrayCounts(Talk(run), fd, out, back, c);
  }

  lemma StrayCounts(d: Dialogue, fd: Descriptor, out: Reply, back: Reply, c: Client)
    requires |d.asked| == 2 && d.asked[0].fd == d.asked[1].fd == fd && d.answered == [out, back]
    requires out.ok && out.kind == ReleaseClientId && out.client == c
    requires back.ok && back.kind == GetClientId && back.client == c
    ensures Granted(d, fd, 2) == [c]
    ensures Counted(d, fd, 2, GetClientId) == Counted(d, fd, 2, ReleaseClientId) == multiset{c}
  {
    assert d.answered[0] == out && d.answered[1] == back;
    assert Granted(d, fd, 0) == Granted(d, fd, 1) == [];
    assert Counted(d, fd, 0, GetClientId) == Counted(d, fd, 0, ReleaseClientId) == multiset{};
    assert Counted(d, fd, 1, GetClientId) == multiset{} && Counted(d, fd, 1, ReleaseClientId) == multiset{c};
  }

  ghost predicate Holder(cs: seq<Connection>, i: int, j: int, n: Note) {
    0 <= i < |cs| && 0 <= j < |cs[i].clients| && Wants(cs[i].clients[j], n)
  }

  lemma {:induction false} NotesOneTo(fd: Descriptor, clients: seq<Client>, n: Note)
    ensures forall k :: 0 <= k < |NotesOne(fd, clients, n)| ==> NotesOne(fd, clients, n)[k] == Delivery(fd, n)
    ensures NotesOne(fd, clients, n) == [] <==> forall j :: 0 <= j < |clients| ==> !Wants(clients[j], n)
  {
    if clients != [] { NotesOneTo(fd, clients[1..], n); }
  }

  // A service message goes to a client if and only if the client holds the id it names (any id of the
  // service when it names none).
  lemma {:induction false} NotesReachHolders(cs: seq<Connection>, n: Note, fd: Descriptor)
    ensures Delivery(fd, n) in Notes(cs, n) <==> exists i, j :: Holder(cs, i, j, n) && cs[i].fd == fd
  {
    if cs != [] {
      NotesReachHolders(cs[1..], n, fd);
      NotesOneTo(cs[0].fd, cs[0].clients, n);
      if Delivery(fd, n) in NotesOne(cs[0].fd, cs[0].clients, n) {
        var j :| 0 <= j < |cs[0].clients| && Wants(cs[0].clients[j], n);
        assert Holder(cs, 0, j, n);
      } else if Delivery(fd, n) in Notes(cs[1..], n) {
        var i, j :| Holder(cs[1..], i, j, n) && cs[1..][i].fd == fd;
        assert Holder(cs, i + 1, j, n);
      }
      forall i, j | Holder(cs, i, j, n) && cs[i].fd == fd ensures Delivery(fd, n) in Notes(cs, n) {
        if i == 0 {
          var one := NotesOne(cs[0].fd, cs[0].clients, n);
          assert one[0] == Delivery(fd, n);
        } else {
          assert Holder(cs[1..], i - 1, j, n);
        }
      }
    }
  }

  // ---- where the promises end ----

  lemma {:induction false} FindFdAt(cs: seq<Connection>, fd: Descriptor, i: nat)
    requires i < |cs| && cs[i].fd == fd && forall j :: 0 <= j < i ==> cs[j].fd != fd
    ensures FindFd(cs, fd) == i
  {
    if i > 0 { FindFdAt(cs[1..], fd, i - 1); }
  }

  // A control indication writes the outstanding request a second time, exactly when there is one.
  lemma IndicationRepeats(run: seq<Event>)
    requires Orderly(run)
    ensures var s := Run(run);
      && (s.control == [] ==> Step(s, Indication) == s)
      && (s.control != [] ==> |s.wire| > 0 && Step(s, Indication).wire == s.wire + [s.wire[|s.wire| - 1]])
  {
    RunInv(run);
    var s := Run(run);
    if s.control != [] {
      assert s.control[0] == Talk(run).asked[|Talk(run).answered|];
      var i :| IsAt(s.connections, s.control[0].fd, i);
      OneCopy(s.connections, s.control[0].fd, s.control[0], i);
    }
  }

  // The poll loop watches and reads the descriptors that are kept, not the ones that were accepted.
  function Polled(cs: seq<Connection>): set<nat> { set c | c in cs :: c.fd }

  lemma StillPolled(cs: seq<Connection>, i: nat, fd: nat)
    requires i < |cs| && cs[i].fd == fd
    ensures fd in Polled(cs)
  {
    assert cs[i] in cs;
  }

  lemma StepPolled(s: Server, e: Event, fd: nat)
    requires fd in Polled(s.connections) && (e.Hangup? ==> e.gone != fd)
    ensures fd in Polled(Step(s, e).connections)
  {
    var c :| c in s.connections && c.fd == fd;
    var i :| 0 <= i < |s.connections| && s.connections[i] == c;
    match e
    case Answer(r) =>
      if s.control != [] {
        ServedEach(s.connections, s.control[0].fd, r);
        StillPolled(Serve(s.connections, s.control[0].fd, r), i, fd);
      }
    case Hangup(gone) =>
      var k := FindFd(s.connections, gone);
      if k < |s.connections| {
        StillPolled(s.connections[..k] + s.connections[k + 1..], if i < k then i else i - 1, fd);
      }
    case Accept(x) => StillPolled(s.connections + [Connection(Kept(x), [])], i, fd);
    case _ =>
  }

  // Whatever the run, a client that has not been hung up is read under its own descriptor if and only if
  // that descriptor is below 256; the byte kept for a larger one is some other file's.
  lemma {:induction false} ReadUnderOwn(run: seq<Event>, k: nat)
    requires k < |run| && run[k].Accept?
    requires forall i :: k < i < |run| && run[i].Hangup? ==> run[i].gone != run[k].fd
    ensures run[k].fd in Polled(Run(run).connections) <==> run[k].fd < 256
  {
    var last := |run| - 1;
    var s, fd := Run(run[..last]), run[k].fd;
    if fd < 256 {
      if k == last {
        assert Connection(fd, []) in Step(s, run[last]).connections;
      } else {
        ReadUnderOwn(run[..last], k);
        StepPolled(s, run[last], fd);
      }
    }
  }

  // Two descriptors that agree modulo 256 share a byte. The second read of that byte finds nothing and the
  // loop closes it: that hits the client that is there already, with its ids, and the newcomer stays.
  lemma SharedByteClosesOther(run: seq<Event>, a: Descriptor, b: nat) returns (i: nat)
    requires Orderly(run) && a in Accepted(run) && b != a && Kept(b) == a
    ensures IsAt(Run(run).connections, a, i)
    ensures var cs := Run(run).connections;
      Step(Step(Run(run), Accept(b)), Hangup(a)).connections == cs[..i] + cs[i + 1..] + [Connection(a, [])]
  {
    RunInv(run);
    var cs := Run(run).connections;
    i :| IsAt(cs, a, i);
    FindFdAt(cs + [Connection(a, [])], a, i);
    CutBeforeLast(cs, Connection(a, []), i);
  }

  lemma CutBeforeLast<T>(s: seq<T>, x: T, i: nat)
    requires i < |s|
    ensures (s + [x])[..i] + (s + [x])[i + 1..] == s[..i] + s[i + 1..] + [x]
  {
  }

  // ---- what one message does ----

  // A service message is meant for an id: it names the service, and that id or none.
  predicate MeantFor(n: Note, c: Client) {
    c.service == n.client.service && (n.client.id == c.id || n.client.id == 0)
  }

  function MeantIds(clients: seq<Client>, n: Note): nat {
    if clients == [] then 0 else (if MeantFor(n, clients[0]) then 1 else 0) + MeantIds(clients[1..], n)
  }

  // The ids that clients under this descriptor hold and the message is meant for.
  function HeldIds(cs: seq<Connection>, fd: Descriptor, n: Note): nat {
    if cs == [] then 0 else (if cs[0].fd == fd then MeantIds(cs[0].clients, n) else 0) + HeldIds(cs[1..], fd, n)
  }

  function SentTo(notes: seq<Delivery<Note>>, fd: Descriptor): nat {
    if notes == [] then 0 else (if notes[0].fd == fd then 1 else 0) + SentTo(notes[1..], fd)
  }

  lemma {:induction false} SentToPlus(a: seq<Delivery<Note>>, b: seq<Delivery<Note>>, fd: Descriptor)
    ensures SentTo(a + b, fd) == SentTo(a, fd) + SentTo(b, fd)
  {
    if a == [] {
      assert a + b == b;
    } else {
      assert (a + b)[1..] == a[1..] + b;
      SentToPlus(a[1..], b, fd);
    }
  }

  lemma {:induction false} OneClientCount(to: Descriptor, clients: seq<Client>, n: Note, fd: Descriptor)
    ensures SentTo(NotesOne(to, clients, n), fd) == if to == fd then MeantIds(clients, n) else 0
  {
    if clients != [] {
      OneClientCount(to, clients[1..], n, fd);
      SentToPlus(if Wants(clients[0], n) then [Delivery(to, n)] else [], NotesOne(to, clients[1..], n), fd);
    }
  }

  lemma {:induction false} NotesCount(cs: seq<Connection>, n: Note, fd: Descriptor)
    ensures SentTo(Notes(cs, n), fd) == HeldIds(cs, fd, n)
  {
    if cs != [] {
      NotesCount(cs[1..], n, fd);
      OneClientCount(cs[0].fd, cs[0].clients, n, fd);
      SentToPlus(NotesOne(cs[0].fd, cs[0].clients, n), Notes(cs[1..], n), fd);
    }
  }

  // In every run a service message from the device goes to each client once for each id of its own that it is
  // meant for, and changes nothing else.
  lemma OneCopyPerId(run: seq<Event>, n: Note, fd: Descriptor)
    ensures var s, t := Run(run), Run(run + [Data(n)]);
      && t.connections == s.connections && t.control == s.control && t.wire == s.wire && t.replies == s.replies
      && |t.notes| >= |s.notes| && t.notes[..|s.notes|] == s.notes
      && SentTo(t.notes, fd) == SentTo(s.notes, fd) + HeldIds(s.connections, fd, n)
  {
    assert (run + [Data(n)])[..|run|] == run;
    NotesCount(Run(run).connections, n, fd);
    SentToPlus(Run(run).notes, Notes(Run(run).connections, n), fd);
  }

  // Where the first entry `c` is, or the length of the table.
  function PlaceOf(clients: seq<Client>, c: Client): (i: nat)
    ensures i <= |clients| && (i < |clients| ==> clients[i] == c)
    ensures forall j :: 0 <= j < i ==> clients[j] != c
  {
    if clients == [] || clients[0] == c then 0 else 1 + PlaceOf(clients[1..], c)
  }

  function CutOut(clients: seq<Client>, i: nat): seq<Client> {
    if i < |clients| then clients[..i] + clients[i + 1..] else clients
  }

  // The id table after an answer: a confirmed allocation joins its end, a confirmed release takes out the first
  // such entry if there is one, and nothing else changes it.
  predicate BookedRight(before: seq<Client>, r: Reply, after: seq<Client>) {
    after == if !r.ok then before
             else if r.kind == GetClientId then before + [r.client]
             else if r.kind == ReleaseClientId then CutOut(before, PlaceOf(before, r.client))
             else before
  }

  lemma {:induction false} WithoutCuts(clients: seq<Client>, c: Client)
    ensures Without(clients, c) == CutOut(clients, PlaceOf(clients, c))
  {
    if clients != [] && clients[0] != c {
      WithoutCuts(clients[1..], c);
      CutOutLater(clients, PlaceOf(clients[1..], c));
    }
  }

  lemma CutOutLater(clients: seq<Client>, i: nat)
    requires clients != [] && i < |clients|
    ensures [clients[0]] + CutOut(clients[1..], i) == CutOut(clients, i + 1)
  {
    if i + 1 < |clients| {
      assert clients[..i + 1] == [clients[0]] + clients[1..][..i];
      assert clients[i + 2..] == clients[1..][i + 1..];
    }
  }

  lemma BookedIsRight(clients: seq<Client>, r: Reply)
    ensures BookedRight(clients, r, Booked(clients, r))
  {
    WithoutCuts(clients, r.client);
  }

  // An answer books what it grants or frees for the asker, and leaves every other table alone.
  lemma AnswerBooks(s: Server, r: Reply, i: nat)
    requires s.control != [] && i < |s.connections|
    ensures var t := Step(s, Answer(r));
      && |t.connections| == |s.connections| && t.connections[i].fd == s.connections[i].fd
      && if s.connections[i].fd == s.control[0].fd
         then BookedRight(s.connections[i].clients, r, t.connections[i].clients)
         else t.connections[i] == s.connections[i]
  {
    ServedEach(s.connections, s.control[0].fd, r);
    BookedIsRight(s.connections[i].clients, r);
  }
}

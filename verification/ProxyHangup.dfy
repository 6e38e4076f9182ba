/**
 * What one disconnect does to the proxy's control queue (fibocom-dial/src/fibo_qmimsg_server.c:514-547): only
 * the first request of the client that left is taken out, and it may be the one the device is answering.
 */
module ProxyHangup {
  import opened ProxyModel
  import opened ProxyTheorems

  function Go(s: Server, es: seq<Event>): Server {
    if es == [] then s else Step(Go(s, es[..|es| - 1]), es[|es| - 1])
  }

  lemma {:induction false} RunGoes(run: seq<Event>, es: seq<Event>)
    ensures Run(run + es) == Go(Run(run), es)
  {
    if es == [] {
      assert run + es == run;
    } else {
      assert (run + es)[..|run + es| - 1] == run + es[..|es| - 1];
      RunGoes(run, es[..|es| - 1]);
    }
  }

  function Asks(es: seq<Event>): seq<Request> {
    if es == [] then []
    else
      var e := es[|es| - 1];
      Asks(es[..|es| - 1]) + if e.Ask? then [e.request] else []
  }

  function Answers(es: seq<Event>): nat {
    if es == [] then 0 else Answers(es[..|es| - 1]) + if es[|es| - 1].Answer? then 1 else 0
  }

  ghost predicate Connected(cs: seq<Connection>, fd: Descriptor) { exists i :: IsAt(cs, fd, i) }

  // The server when client `fd` has hung up after an orderly run, and its queue.
  function Bereft(run: seq<Event>, fd: Descriptor): Server { Step(Run(run), Hangup(fd)) }

  function Queue(run: seq<Event>, fd: Descriptor): seq<Request> { DropFirst(Run(run).control, fd) }

  // The requests that were written to the device and that it has not answered.
  function Unanswered(run: seq<Event>, fd: Descriptor, es: seq<Event>): int {
    |Go(Bereft(run, fd), es).wire| - |Talk(run).answered| - Answers(es)
  }

  // What follows the disconnect: clients that are connected ask, the device answers what it was asked, new
  // clients come under descriptors that are free and are not the one that was closed.
  ghost predicate Decent(run: seq<Event>, fd: Descriptor, es: seq<Event>) {
    es == [] ||
    var before := es[..|es| - 1];
    var cs := Go(Bereft(run, fd), before).connections;
    Decent(run, fd, before) &&
    match es[|es| - 1]
    case Accept(x) => x < 256 && x != fd && !Connected(cs, x)
    case Ask(q) => Connected(cs, q.fd)
    case Answer(_) => Unanswered(run, fd, before) > 0
    case Data(_) => true
    case _ => false
  }

  // ---- connections ----

  ghost predicate Apart(cs: seq<Connection>, fd: Descriptor) {
    && (forall i, j :: 0 <= i < j < |cs| ==> cs[i].fd != cs[j].fd)
    && forall i :: 0 <= i < |cs| ==> cs[i].fd != fd
  }

  lemma CopiesWhere<T>(cs: seq<Connection>, gone: Descriptor, fd: Descriptor, what: T)
    requires Apart(cs, gone)
    ensures Copies(cs, fd, what) == if Connected(cs, fd) then [what] else []
  {
    if Connected(cs, fd) {
      var i :| IsAt(cs, fd, i);
      OneCopy(cs, fd, what, i);
    } else {
      assert forall i :: 0 <= i < |cs| ==> IsAt(cs, cs[i].fd, i);
      NoCopies(cs, fd, what);
    }
  }

  lemma ServeSame(cs: seq<Connection>, gone: Descriptor, fd: Descriptor, r: Reply)
    requires Apart(cs, gone)
    ensures Apart(Serve(cs, fd, r), gone)
    ensures forall x: Descriptor :: Connected(cs, x) ==> Connected(Serve(cs, fd, r), x)
  {
    ServedEach(cs, fd, r);
    forall x: Descriptor | Connected(cs, x) ensures Connected(Serve(cs, fd, r), x) {
      var i :| IsAt(cs, x, i);
      assert IsAt(Serve(cs, fd, r), x, i);
    }
  }

  lemma AcceptSame(cs: seq<Connection>, gone: Descriptor, x: Descriptor)
    requires Apart(cs, gone) && x != gone && !Connected(cs, x)
    ensures Apart(cs + [Connection(x, [])], gone)
    ensures forall y: Descriptor :: Connected(cs, y) ==> Connected(cs + [Connection(x, [])], y)
  {
    forall i | 0 <= i < |cs| ensures cs[i].fd != x {
      assert IsAt(cs, cs[i].fd, i);
    }
    forall y: Descriptor | Connected(cs, y) ensures Connected(cs + [Connection(x, [])], y) {
      var i :| IsAt(cs, y, i);
      assert IsAt(cs + [Connection(x, [])], y, i);
    }
  }

  // ---- the queue just after the disconnect ----

  lemma {:induction false} DropFirstKeeps(control: seq<Request>, fd: Descriptor)
    ensures forall q :: q in DropFirst(control, fd) ==> q in control
    ensures control != [] && control[0].fd == fd ==> DropFirst(control, fd) == control[1..]
    ensures control != [] && control[0].fd != fd ==>
              DropFirst(control, fd) != [] && DropFirst(control, fd)[0] == control[0]
  {
    if control != [] { DropFirstKeeps(control[1..], fd); }
  }

  // Every request left belongs to the client that left or to one that is connected.
  ghost predicate Owned(cs: seq<Connection>, fd: Descriptor, queue: seq<Request>) {
    forall i :: 0 <= i < |queue| ==> queue[i].fd == fd || Connected(cs, queue[i].fd)
  }

  lemma LeftBehind(cs: seq<Connection>, fds: set<nat>, fd: Descriptor, i: nat)
    requires Tidy(cs, fds) && i < |cs| && cs[i].fd == fd
    ensures var left := cs[..i] + cs[i + 1..];
      Apart(left, fd) && forall x: Descriptor :: x in fds && x != fd ==> Connected(left, x)
  {
    var left := cs[..i] + cs[i + 1..];
    assert forall k :: 0 <= k < |left| ==> left[k] == cs[if k < i then k else k + 1];
    forall x: Descriptor | x in fds && x != fd ensures Connected(left, x) {
      var j :| IsAt(cs, x, j);
      assert IsAt(left, x, if j < i then j else j - 1);
    }
  }

  lemma LeftOwned(run: seq<Event>, fd: Descriptor, cs: seq<Connection>)
    requires Orderly(run)
    requires forall x: Descriptor :: x in Accepted(run) && x != fd ==> Connected(cs, x)
    ensures Owned(cs, fd, Queue(run, fd))
  {
    RunInv(run);
    var d, queue := Talk(run), Queue(run, fd);
    DropFirstKeeps(Run(run).control, fd);
    forall i | 0 <= i < |queue| ensures queue[i].fd == fd || Connected(cs, queue[i].fd) {
      assert queue[i] in Run(run).control;
      assert queue[i] in d.asked;
    }
  }

  lemma LeaveIs(s: Server, fd: Descriptor, i: nat)
    requires i < |s.connections| && s.connections[i].fd == fd && forall j :: 0 <= j < i ==> s.connections[j].fd != fd
    ensures Leave(s, fd) == Server(s.connections[..i] + s.connections[i + 1..], DropFirst(s.control, fd), s.wire,
                                   s.replies, s.notes)
  {
    FindFdAt(s.connections, fd, i);
  }

  lemma Standing(run: seq<Event>, fd: Descriptor) returns (i: nat)
    requires Orderly(run) && fd in Accepted(run)
    ensures IsAt(Run(run).connections, fd, i) && Tidy(Run(run).connections, Accepted(run))
    ensures forall j :: 0 <= j < i ==> Run(run).connections[j].fd != fd
  {
    RunInv(run);
    i :| IsAt(Run(run).connections, fd, i);
  }

  lemma JustLeft(run: seq<Event>, fd: Descriptor)
    requires Orderly(run) && fd in Accepted(run)
    ensures var t := Bereft(run, fd);
      && Apart(t.connections, fd) && Owned(t.connections, fd, Queue(run, fd))
      && t.control == Queue(run, fd) && t.wire == Run(run).wire && t.replies == Run(run).replies
  {
    var i := Standing(run, fd);
    var cs := Run(run).connections;
    LeaveIs(Run(run), fd, i);
    LeftBehind(cs, Accepted(run), fd, i);
    LeftOwned(run, fd, cs[..i] + cs[i + 1..]);
  }

  lemma JustOpen(run: seq<Event>, fd: Descriptor)
    requires Orderly(run) && fd in Accepted(run)
    ensures Unanswered(run, fd, []) == if Run(run).control == [] then 0 else 1
  {
    JustLeft(run, fd);
    OneOutstanding(run);
    RunInv(run);
  }

  // ---- while a request stays in the queue ----

  // `queue` is all that was or came to be queued, of which n answers have taken n away. The first answer is
  // still to come for the old head; later ones for the head there is, if its client is connected.
  ghost predicate InPhase(t: Server, fd: Descriptor, queue: seq<Request>, n: nat, open: int) {
    && Apart(t.connections, fd) && Owned(t.connections, fd, queue)
    && n <= |queue| && t.control == queue[n..]
    && open == if n == 0 then 1 else if n < |queue| && queue[n].fd != fd then 1 else 0
  }

  lemma AskInPhase(t: Server, fd: Descriptor, queue: seq<Request>, n: nat, open: int, q: Request)
    requires InPhase(t, fd, queue, n, open) && queue != [] && Connected(t.connections, q.fd)
    ensures var u := Step(t, Ask(q)); InPhase(u, fd, queue + [q], n, open + |u.wire| - |t.wire|)
  {
    var i :| IsAt(t.connections, q.fd, i);
    assert (queue + [q])[n..] == queue[n..] + [q];
  }

  lemma AnswerInPhase(t: Server, fd: Descriptor, queue: seq<Request>, n: nat, open: int, r: Reply)
    requires InPhase(t, fd, queue, n, open) && queue != [] && open > 0
    ensures var u := Step(t, Answer(r)); InPhase(u, fd, queue, n + 1, open + |u.wire| - |t.wire| - 1)
  {
    var head, u := queue[n].fd, Settle(t, r);
    assert t.control[0] == queue[n] && queue[n..][1..] == queue[n + 1..];
    ServeSame(t.connections, fd, head, r);
    if n + 1 < |queue| {
      var next := queue[n + 1];
      assert u.control[0] == next;
      CopiesWhere(u.connections, fd, next.fd, next);
      assert next.fd == fd || Connected(t.connections, next.fd);
    }
  }

  lemma AcceptInPhase(t: Server, fd: Descriptor, queue: seq<Request>, n: nat, open: int, x: Descriptor)
    requires InPhase(t, fd, queue, n, open) && x != fd && !Connected(t.connections, x)
    ensures InPhase(Step(t, Accept(x)), fd, queue, n, open)
  {
    AcceptSame(t.connections, fd, x);
  }

  // ---- when nothing stayed in the queue ----

  ghost predicate Loose(t: Server, fd: Descriptor, open: int) {
    && Apart(t.connections, fd) && open >= 0
    && (forall i :: 0 <= i < |t.control| ==> Connected(t.connections, t.control[i].fd))
    && (t.control != [] ==> open >= 1)
  }

  lemma AnswerLoose(t: Server, fd: Descriptor, open: int, r: Reply)
    requires Loose(t, fd, open) && open > 0
    ensures var u := Step(t, Answer(r)); Loose(u, fd, open + |u.wire| - |t.wire| - 1)
  {
    if t.control != [] {
      var u := Settle(t, r);
      ServeSame(t.connections, fd, t.control[0].fd, r);
      if u.control != [] {
        assert u.control[0] == t.control[1];
        CopiesWhere(u.connections, fd, u.control[0].fd, u.control[0]);
      }
    }
  }

  lemma AcceptLoose(t: Server, fd: Descriptor, open: int, x: Descriptor)
    requires Loose(t, fd, open) && x != fd && !Connected(t.connections, x)
    ensures Loose(Step(t, Accept(x)), fd, open)
  {
    AcceptSame(t.connections, fd, x);
  }

  // ---- what follows, whatever it is ----

  ghost predicate Followed(run: seq<Event>, fd: Descriptor, es: seq<Event>) {
    var t, open := Go(Bereft(run, fd), es), Unanswered(run, fd, es);
    if Queue(run, fd) == [] then Loose(t, fd, open)
    else InPhase(t, fd, Queue(run, fd) + Asks(es), Answers(es), open)
  }

  lemma NextLoose(run: seq<Event>, fd: Descriptor, es: seq<Event>)
    requires es != [] && Decent(run, fd, es)
    requires var before := es[..|es| - 1]; Loose(Go(Bereft(run, fd), before), fd, Unanswered(run, fd, before))
    ensures Loose(Go(Bereft(run, fd), es), fd, Unanswered(run, fd, es))
  {
    var before := es[..|es| - 1];
    var t, open := Go(Bereft(run, fd), before), Unanswered(run, fd, before);
    match es[|es| - 1]
    case Answer(r) => AnswerLoose(t, fd, open, r);
    case Accept(x) => AcceptLoose(t, fd, open, x);
    case _ =>
  }

  lemma NextInPhase(run: seq<Event>, fd: Descriptor, es: seq<Event>, queue: seq<Request>)
    requires es != [] && Decent(run, fd, es) && queue != []
    requires var before := es[..|es| - 1];
      InPhase(Go(Bereft(run, fd), before), fd, queue, Answers(before), Unanswered(run, fd, before))
    ensures var e := es[|es| - 1];
      InPhase(Go(Bereft(run, fd), es), fd, if e.Ask? then queue + [e.request] else queue, Answers(es),
              Unanswered(run, fd, es))
  {
    var before := es[..|es| - 1];
    var t, n, open := Go(Bereft(run, fd), before), Answers(before), Unanswered(run, fd, before);
    NextOpen(run, fd, es);
    match es[|es| - 1]
    case Ask(q) => AskInPhase(t, fd, queue, n, open, q);
    case Answer(r) => AnswerInPhase(t, fd, queue, n, open, r);
    case Accept(x) => AcceptInPhase(t, fd, queue, n, open, x);
    case _ =>
  }

  lemma NextOpen(run: seq<Event>, fd: Descriptor, es: seq<Event>)
    requires es != []
    ensures var t, e := Go(Bereft(run, fd), es[..|es| - 1]), es[|es| - 1];
      && Go(Bereft(run, fd), es) == Step(t, e)
      && Unanswered(run, fd, es)
           == Unanswered(run, fd, es[..|es| - 1]) + |Step(t, e).wire| - |t.wire| - (if e.Answer? then 1 else 0)
  {
  }

  lemma FollowedNext(run: seq<Event>, fd: Descriptor, es: seq<Event>)
    requires es != [] && Decent(run, fd, es) && Followed(run, fd, es[..|es| - 1])
    ensures Followed(run, fd, es)
  {
    if Queue(run, fd) == [] {
      NextLoose(run, fd, es);
    } else {
      var before, e := es[..|es| - 1], es[|es| - 1];
      NextInPhase(run, fd, es, Queue(run, fd) + Asks(before));
      QueueNext(Queue(run, fd), es);
    }
  }

  lemma QueueNext(queue: seq<Request>, es: seq<Event>)
    requires es != []
    ensures var before, e := queue + Asks(es[..|es| - 1]), es[|es| - 1];
      queue + Asks(es) == if e.Ask? then before + [e.request] else before
  {
    var asks, e := Asks(es[..|es| - 1]), es[|es| - 1];
    if e.Ask? {
      Grouped(queue, asks, e.request);
    } else {
      assert asks + [] == asks;
    }
  }

  lemma Grouped<T>(a: seq<T>, b: seq<T>, x: T)
    ensures a + (b + [x]) == a + b + [x]
  {
  }

  lemma {:induction false} Follows(run: seq<Event>, fd: Descriptor, es: seq<Event>)
    requires Orderly(run) && fd in Accepted(run) && Decent(run, fd, es)
    ensures Followed(run, fd, es)
  {
    if es == [] {
      JustLeft(run, fd);
      JustOpen(run, fd);
      assert Queue(run, fd) + [] == Queue(run, fd);
    } else {
      Follows(run, fd, es[..|es| - 1]);
      FollowedNext(run, fd, es);
    }
  }

  lemma {:induction false} AsksOthers(run: seq<Event>, fd: Descriptor, es: seq<Event>)
    requires Orderly(run) && fd in Accepted(run) && Decent(run, fd, es)
    ensures forall q :: q in Asks(es) ==> q.fd != fd
  {
    if es != [] {
      var before := es[..|es| - 1];
      AsksOthers(run, fd, before);
      Follows(run, fd, before);
      assert Apart(Go(Bereft(run, fd), before).connections, fd);
    }
  }

  // ---- wedging ----

  // Requests are waiting, and the device owes no answer that would send one of them.
  ghost predicate Wedged(run: seq<Event>, fd: Descriptor, es: seq<Event>) {
    Go(Bereft(run, fd), es).control != [] && Unanswered(run, fd, es) == 0
  }

  // Whatever follows the disconnect, the proxy is wedged exactly when the answers have brought up another
  // request of the client that left.
  lemma WedgeExact(run: seq<Event>, fd: Descriptor, es: seq<Event>)
    requires Orderly(run) && fd in Accepted(run) && Decent(run, fd, es)
    ensures var queue, n := Queue(run, fd), Answers(es);
      Wedged(run, fd, es) <==> 1 <= n < |queue| && queue[n].fd == fd
  {
    Follows(run, fd, es);
    AsksOthers(run, fd, es);
    var t, open := Go(Bereft(run, fd), es), Unanswered(run, fd, es);
    if Queue(run, fd) != [] {
      PhaseWedge(t, fd, Queue(run, fd), Asks(es), Answers(es), open);
    }
  }

  lemma PhaseWedge(t: Server, fd: Descriptor, queue: seq<Request>, asks: seq<Request>, n: nat, open: int)
    requires queue != [] && InPhase(t, fd, queue + asks, n, open) && forall q :: q in asks ==> q.fd != fd
    ensures t.control != [] && open == 0 <==> 1 <= n < |queue| && queue[n].fd == fd
  {
    var all := queue + asks;
    if |queue| <= n < |all| { assert all[n] in asks; }
  }

  ghost predicate Leftover(queue: seq<Request>, fd: Descriptor, j: int) { 1 <= j < |queue| && queue[j].fd == fd }

  // The k-th answer can be reached while no request of the client that left comes up before it.
  lemma {:induction false} Drained(run: seq<Event>, fd: Descriptor, r: Reply, k: nat) returns (es: seq<Event>)
    requires Orderly(run) && fd in Accepted(run) && k < |Queue(run, fd)|
    requires forall i :: 1 <= i < k ==> Queue(run, fd)[i].fd != fd
    ensures Decent(run, fd, es) && Answers(es) == k && Asks(es) == []
  {
    es := [];
    if k > 0 {
      es := Drained(run, fd, r, k - 1);
      StillOpen(run, fd, es);
      DecentNext(run, fd, es, r);
      AnsweredNext(es, r);
      es := es + [Answer(r)];
    }
  }

  lemma StillOpen(run: seq<Event>, fd: Descriptor, es: seq<Event>)
    requires Orderly(run) && fd in Accepted(run) && Decent(run, fd, es) && Asks(es) == []
    requires var n := Answers(es); n < |Queue(run, fd)| && (n == 0 || Queue(run, fd)[n].fd != fd)
    ensures Unanswered(run, fd, es) == 1
  {
    Follows(run, fd, es);
    assert Queue(run, fd) + [] == Queue(run, fd);
  }

  lemma DecentNext(run: seq<Event>, fd: Descriptor, before: seq<Event>, r: Reply)
    requires Decent(run, fd, before) && Unanswered(run, fd, before) > 0
    ensures Decent(run, fd, before + [Answer(r)])
  {
    AnsweredNext(before, r);
  }

  lemma AnsweredNext(before: seq<Event>, r: Reply)
    ensures var es := before + [Answer(r)];
      && es[..|es| - 1] == before && es[|es| - 1] == Answer(r)
      && Answers(es) == Answers(before) + 1 && Asks(es) == Asks(before)
  {
    var es := before + [Answer(r)];
    assert es[..|es| - 1] == before;
  }

  lemma {:induction false} FirstLeftover(queue: seq<Request>, fd: Descriptor, j: nat) returns (k: nat)
    requires Leftover(queue, fd, j)
    ensures Leftover(queue, fd, k) && forall i :: 1 <= i < k ==> queue[i].fd != fd
    decreases j
  {
    if i: nat :| 1 <= i < j && queue[i].fd == fd {
      k := FirstLeftover(queue, fd, i);
    } else {
      k := j;
    }
  }

  // The proxy can be wedged by a disconnect if and only if a request of that client stays behind the head.
  lemma WedgePossible(run: seq<Event>, fd: Descriptor, r: Reply)
    requires Orderly(run) && fd in Accepted(run)
    ensures (exists es :: Decent(run, fd, es) && Wedged(run, fd, es)) <==> exists j :: Leftover(Queue(run, fd), fd, j)
  {
    var queue := Queue(run, fd);
    if es :| Decent(run, fd, es) && Wedged(run, fd, es) {
      WedgeExact(run, fd, es);
      assert Leftover(queue, fd, Answers(es));
    }
    if j :| Leftover(queue, fd, j) {
      var k := FirstLeftover(queue, fd, j);
      var es := Drained(run, fd, r, k);
      WedgeExact(run, fd, es);
      assert Decent(run, fd, es) && Wedged(run, fd, es);
    }
  }

  // No question, indication or new client frees it, short of one that gets the closed descriptor.
  lemma {:induction false} WedgeHolds(t: Server, es: seq<Event>)
    requires t.control != [] && !Connected(t.connections, t.control[0].fd)
    requires forall e :: e in es ==> !e.Answer? && !e.Hangup? && (e.Accept? ==> Kept(e.fd) != t.control[0].fd)
    ensures var u := Go(t, es);
      && u.wire == t.wire && u.replies == t.replies && u.control == t.control + Asks(es)
      && !Connected(u.connections, t.control[0].fd)
  {
    if es == [] {
      assert t.control + [] == t.control;
    } else {
      WedgeHolds(t, es[..|es| - 1]);
      assert es[|es| - 1] in es;
      WedgeStep(Go(t, es[..|es| - 1]), es[|es| - 1]);
      QueueNext(t.control, es);
    }
  }

  lemma WedgeStep(t: Server, e: Event)
    requires t.control != [] && !Connected(t.connections, t.control[0].fd)
    requires !e.Answer? && !e.Hangup? && (e.Accept? ==> Kept(e.fd) != t.control[0].fd)
    ensures var u := Step(t, e);
      && u.wire == t.wire && u.replies == t.replies
      && u.control == (if e.Ask? then t.control + [e.request] else t.control)
      && !Connected(u.connections, t.control[0].fd)
  {
    var cs, head := t.connections, t.control[0].fd;
    match e
    case Accept(x) =>
      var more := cs + [Connection(Kept(x), [])];
      if Connected(more, head) {
        var i :| IsAt(more, head, i);
        assert IsAt(cs, head, i);
      }
    case Indication =>
      forall i | 0 <= i < |cs| ensures cs[i].fd != head {
        assert IsAt(cs, cs[i].fd, i);
      }
      NoCopies(cs, head, t.control[0]);
    case _ =>
  }

  // ---- misdelivery ----

  // While the device has not answered yet, the answer it owes goes to whoever heads the queue by then.
  lemma FirstAnswer(run: seq<Event>, fd: Descriptor, es: seq<Event>, r: Reply)
    requires Orderly(run) && fd in Accepted(run) && Decent(run, fd, es) && Answers(es) == 0
    ensures var t, queue := Go(Bereft(run, fd), es), Queue(run, fd) + Asks(es);
      && t.control == queue && t.replies == Run(run).replies
      && Step(t, Answer(r)).replies
           == t.replies + if queue != [] && queue[0].fd != fd then [Delivery(queue[0].fd, r)] else []
  {
    Waiting(run, fd, es);
    Follows(run, fd, es);
    var t, queue := Go(Bereft(run, fd), es), Queue(run, fd) + Asks(es);
    if queue != [] {
      CopiesWhere(t.connections, fd, queue[0].fd, Delivery(queue[0].fd, r));
      assert t.control[0] == queue[0];
    }
  }

  lemma {:induction false} Waiting(run: seq<Event>, fd: Descriptor, es: seq<Event>)
    requires Orderly(run) && fd in Accepted(run) && Decent(run, fd, es) && Answers(es) == 0
    ensures var t := Go(Bereft(run, fd), es);
      t.control == Queue(run, fd) + Asks(es) && t.replies == Run(run).replies
  {
    if es == [] {
      JustLeft(run, fd);
      assert Queue(run, fd) + [] == Queue(run, fd);
    } else {
      Waiting(run, fd, es[..|es| - 1]);
      QueueNext(Queue(run, fd), es);
    }
  }

  ghost predicate Misdelivered(asker: Descriptor, before: seq<Delivery<Reply>>, after: seq<Delivery<Reply>>, r: Reply) {
    exists x :: x != asker && after == before + [Delivery(x, r)]
  }

  // The outstanding answer reaches another client if and only if its asker has left and the queue has, by the
  // time of the answer, a request of another client at its head.
  lemma MisdeliveryExact(run: seq<Event>, fd: Descriptor, es: seq<Event>, r: Reply)
    requires Orderly(run) && fd in Accepted(run) && Decent(run, fd, es) && Answers(es) == 0
    requires Run(run).control != []
    ensures var asker, t := Run(run).control[0].fd, Go(Bereft(run, fd), es);
      var queue := Queue(run, fd) + Asks(es);
      Misdelivered(asker, t.replies, Step(t, Answer(r)).replies, r)
      <==> fd == asker && queue != [] && queue[0].fd != fd
  {
    FirstAnswer(run, fd, es, r);
    DropFirstKeeps(Run(run).control, fd);
    var asker, t := Run(run).control[0].fd, Go(Bereft(run, fd), es);
    var queue := Queue(run, fd) + Asks(es);
    var after := Step(t, Answer(r)).replies;
    if queue != [] && queue[0].fd != fd {
      assert after[|t.replies|] == Delivery(queue[0].fd, r);
      if fd == asker { assert after == t.replies + [Delivery(queue[0].fd, r)] && queue[0].fd != asker; }
    } else {
      assert |after| == |t.replies|;
    }
    if fd != asker { assert queue[0] == Run(run).control[0]; }
  }

  // ---- both happen ----

  lemma OneAccept(run: seq<Event>, fd: Descriptor)
    requires Orderly(run) && fd !in Accepted(run)
    ensures var longer := run + [Accept(fd)];
      Orderly(longer) && Accepted(longer) == Accepted(run) + {fd} && Run(longer).control == Run(run).control
  {
    assert (run + [Accept(fd)])[..|run|] == run;
  }

  // Two clients, and nothing asked yet.
  lemma TwoClients(a: Descriptor, b: Descriptor) returns (run: seq<Event>)
    requires a != b
    ensures Orderly(run) && a in Accepted(run) && b in Accepted(run) && Run(run).control == []
  {
    run := [] + [Accept(a)];
    OneAccept([], a);
    OneAccept(run, b);
    run := run + [Accept(b)];
  }

  lemma OneAsk(run: seq<Event>, q: Request)
    requires Orderly(run) && q.fd in Accepted(run)
    ensures var longer := run + [Ask(q)];
      && Orderly(longer) && Accepted(longer) == Accepted(run)
      && Run(longer).control == Run(run).control + [q] && Run(longer).replies == Run(run).replies
  {
    assert (run + [Ask(q)])[..|run|] == run;
  }

  lemma TwoAsks(run: seq<Event>, p: Request, q: Request)
    requires Orderly(run) && p.fd in Accepted(run) && q.fd in Accepted(run)
    ensures var longer := run + [Ask(p), Ask(q)];
      && Orderly(longer) && Accepted(longer) == Accepted(run)
      && Run(longer).control == Run(run).control + [p, q] && Run(longer).replies == Run(run).replies
  {
    OneAsk(run, p);
    OneAsk(run + [Ask(p)], q);
    assert run + [Ask(p)] + [Ask(q)] == run + [Ask(p), Ask(q)];
    assert Run(run).control + [p] + [q] == Run(run).control + [p, q];
  }

  lemma {:induction false} DropFirstLeaves(s: seq<Request>, p: Request, q: Request)
    requires p.fd == q.fd
    ensures var left := DropFirst(s + [p, q], p.fd); |left| == |s| + 1 && left[|s|] == q
  {
    if s == [] {
      assert s + [p, q] == [p, q];
    } else {
      assert (s + [p, q])[1..] == s[1..] + [p, q];
      DropFirstLeaves(s[1..], p, q);
    }
  }

  // The proxy can be wedged from every state with two clients: one asks, the other asks twice and leaves.
  lemma WedgeHappens(run: seq<Event>, p: Request, q: Request, r: Reply) returns (longer: seq<Event>, es: seq<Event>)
    requires Orderly(run) && p.fd in Accepted(run) && q.fd in Accepted(run)
    ensures Orderly(longer) && q.fd in Accepted(longer) && Decent(longer, q.fd, es) && Wedged(longer, q.fd, es)
  {
    var middle := run + [Ask(p), Ask(q)];
    TwoAsks(run, p, q);
    longer := middle + [Ask(q), Ask(q)];
    TwoAsks(middle, q, q);
    DropFirstLeaves(Run(middle).control, q, q);
    assert Leftover(Queue(longer, q.fd), q.fd, |Run(middle).control|);
    WedgePossible(longer, q.fd, r);
    es :| Decent(longer, q.fd, es) && Wedged(longer, q.fd, es);
  }

  // An answer can be misdelivered from every state with two clients and nothing outstanding: one asks, then
  // the other, the first one leaves, and the other gets the answer to the first one's question.
  lemma MisdeliveryHappens(run: seq<Event>, p: Request, q: Request, r: Reply) returns (longer: seq<Event>)
    requires Orderly(run) && Run(run).control == [] && p.fd != q.fd
    requires p.fd in Accepted(run) && q.fd in Accepted(run)
    ensures Orderly(longer) && p.fd in Accepted(longer) && Run(longer).control == [p, q]
    ensures Step(Bereft(longer, p.fd), Answer(r)).replies == Run(longer).replies + [Delivery(q.fd, r)]
  {
    longer := run + [Ask(p), Ask(q)];
    TwoAsks(run, p, q);
    assert Run(longer).control == [p, q] && [p, q][1..] == [q];
    assert Queue(longer, p.fd) + Asks([]) == [q];
    FirstAnswer(longer, p.fd, [], r);
  }
}

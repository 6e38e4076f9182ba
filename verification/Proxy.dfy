/** The proxy's lists as the poll loop edits them (fibocom-dial/src/fibo_qmimsg_server.c:493-578, 630-727). */
module ProxyCode {
  import opened ProxyModel

  // ---- one more element at the end of a walk ----

  lemma {:induction false} ServeAppend(cs: seq<Connection>, c: Connection, fd: Descriptor, r: Reply)
    ensures Serve(cs + [c], fd, r)
         == Serve(cs, fd, r) + [if c.fd == fd then Connection(fd, Booked(c.clients, r)) else c]
  {
    if cs == [] {
      assert cs + [c] == [c];
    } else {
      assert (cs + [c])[1..] == cs[1..] + [c];
      ServeAppend(cs[1..], c, fd, r);
    }
  }

  // The connections with the first i of them served.
  function Partly(cs: seq<Connection>, i: nat, fd: Descriptor, r: Reply): seq<Connection>
    requires i <= |cs|
  {
    Serve(cs[..i], fd, r) + cs[i..]
  }

  lemma ServeNext(cs: seq<Connection>, i: nat, fd: Descriptor, r: Reply)
    requires i < |cs|
    ensures |Partly(cs, i, fd, r)| == |cs| && Partly(cs, i, fd, r)[i] == cs[i]
    ensures cs[i].fd != fd ==> Partly(cs, i + 1, fd, r) == Partly(cs, i, fd, r)
    ensures cs[i].fd == fd ==>
              Partly(cs, i + 1, fd, r) == Partly(cs, i, fd, r)[i := Connection(fd, Booked(cs[i].clients, r))]
  {
    assert cs[..i + 1] == cs[..i] + [cs[i]];
    ServeAppend(cs[..i], cs[i], fd, r);
    ServeLength(cs[..i], fd, r);
  }

  lemma PartlyEnds(cs: seq<Connection>, fd: Descriptor, r: Reply)
    ensures Partly(cs, 0, fd, r) == cs && Partly(cs, |cs|, fd, r) == Serve(cs, fd, r)
  {
    assert cs[..|cs|] == cs;
  }

  // What had been written before, then one copy for each of the first i connections that match.
  ghost predicate Wrote<T>(all: seq<T>, before: seq<T>, cs: seq<Connection>, i: nat, fd: Descriptor, what: T)
    requires i <= |cs|
  {
    all == before + Copies(cs[..i], fd, what)
  }

  lemma WroteNext<T>(all: seq<T>, before: seq<T>, cs: seq<Connection>, i: nat, fd: Descriptor, what: T)
    requires i < |cs| && Wrote(all, before, cs, i, fd, what)
    ensures Wrote(if cs[i].fd == fd then all + [what] else all, before, cs, i + 1, fd, what)
  {
    assert cs[..i + 1] == cs[..i] + [cs[i]];
    CopiesAppend(cs[..i], cs[i], fd, what);
  }

  lemma WroteAll<T>(all: seq<T>, before: seq<T>, cs: seq<Connection>, fd: Descriptor, what: T)
    requires Wrote(all, before, cs, |cs|, fd, what)
    ensures all == before + Copies(cs, fd, what)
  {
    assert cs[..|cs|] == cs;
  }

  lemma {:induction false} ServeLength(cs: seq<Connection>, fd: Descriptor, r: Reply)
    ensures |Serve(cs, fd, r)| == |cs|
  {
    if cs != [] { ServeLength(cs[1..], fd, r); }
  }

  lemma {:induction false} CopiesAppend<T>(cs: seq<Connection>, c: Connection, fd: Descriptor, what: T)
    ensures Copies(cs + [c], fd, what) == Copies(cs, fd, what) + if c.fd == fd then [what] else []
  {
    if cs == [] {
      assert cs + [c] == [c];
    } else {
      assert (cs + [c])[1..] == cs[1..] + [c];
      CopiesAppend(cs[1..], c, fd, what);
    }
  }

  lemma {:induction false} NotesOneAppend(fd: Descriptor, clients: seq<Client>, c: Client, n: Note)
    ensures NotesOne(fd, clients + [c], n)
         == NotesOne(fd, clients, n) + if Wants(c, n) then [Delivery(fd, n)] else []
  {
    if clients == [] {
      assert clients + [c] == [c];
    } else {
      assert (clients + [c])[1..] == clients[1..] + [c];
      NotesOneAppend(fd, clients[1..], c, n);
    }
  }

  lemma {:induction false} NotesAppend(cs: seq<Connection>, c: Connection, n: Note)
    ensures Notes(cs + [c], n) == Notes(cs, n) + NotesOne(c.fd, c.clients, n)
  {
    if cs == [] {
      assert cs + [c] == [c];
    } else {
      assert (cs + [c])[1..] == cs[1..] + [c];
      NotesAppend(cs[1..], c, n);
    }
  }

  // A sequence without its element i, and its tail without element i - 1.
  lemma CutTail<T>(s: seq<T>, i: nat)
    requires 0 < i < |s|
    ensures s[..i] + s[i + 1..] == [s[0]] + (s[1..][..i - 1] + s[1..][i..])
  {
  }

  lemma {:induction false} WithoutAt(clients: seq<Client>, c: Client, i: nat)
    requires i < |clients| && clients[i] == c
    requires forall j :: 0 <= j < i ==> clients[j] != c
    ensures Without(clients, c) == clients[..i] + clients[i + 1..]
  {
    if i > 0 {
      WithoutAt(clients[1..], c, i - 1);
      CutTail(clients, i);
    }
  }

  lemma {:induction false} WithoutNone(clients: seq<Client>, c: Client)
    requires forall j :: 0 <= j < |clients| ==> clients[j] != c
    ensures Without(clients, c) == clients
  {
    if clients != [] { WithoutNone(clients[1..], c); }
  }

  lemma {:induction false} DropFirstAt(control: seq<Request>, fd: Descriptor, i: nat)
    requires i < |control| && control[i].fd == fd
    requires forall j :: 0 <= j < i ==> control[j].fd != fd
    ensures DropFirst(control, fd) == control[..i] + control[i + 1..]
  {
    if i > 0 {
      DropFirstAt(control[1..], fd, i - 1);
      CutTail(control, i);
    }
  }

  lemma {:induction false} DropNone(control: seq<Request>, fd: Descriptor)
    requires forall j :: 0 <= j < |control| ==> control[j].fd != fd
    ensures DropFirst(control, fd) == control
  {
    if control != [] { DropNone(control[1..], fd); }
  }

  lemma {:induction false} FindFdFirst(cs: seq<Connection>, fd: Descriptor, i: nat)
    requires i <= |cs| && (i < |cs| ==> cs[i].fd == fd)
    requires forall j :: 0 <= j < i ==> cs[j].fd != fd
    ensures FindFd(cs, fd) == i
  {
    if i > 0 { FindFdFirst(cs[1..], fd, i - 1); }
  }

  // release_client_id: the first entry of that service and id goes.
  method ReleaseClient(clients: seq<Client>, c: Client) returns (rest: seq<Client>)
    ensures rest == Without(clients, c)
  {
    rest := clients;
    var i := 0;
    while i < |clients|
      invariant i <= |clients| && rest == clients
      invariant forall j :: 0 <= j < i ==> clients[j] != c
    {
      if c.service == clients[i].service && c.id == clients[i].id {
        WithoutAt(clients, c, i);
        rest := clients[..i] + clients[i + 1..];
        return;
      }
      i := i + 1;
    }
    WithoutNone(clients, c);
  }

  // get_client_id or release_client_id, as the reply asks.
  method Book(clients: seq<Client>, r: Reply) returns (booked: seq<Client>)
    ensures booked == Booked(clients, r)
  {
    booked := clients;
    if r.kind == GetClientId {
      if r.ok { booked := clients + [r.client]; }
    } else if r.kind == ReleaseClientId {
      if r.ok { booked := ReleaseClient(clients, r.client); }
    }
  }

  class ProxyServer {
    var connections: seq<Connection>
    var control: seq<Request>
    // Everything written so far, in order.
    var wire: seq<Request>
    var replies: seq<Delivery<Reply>>
    var notes: seq<Delivery<Note>>

    function Contents(): Server
      reads this
    {
      Server(connections, control, wire, replies, notes)
    }

    constructor ()
      ensures Contents() == IDLE
    {
      connections, control, wire, replies, notes := [], [], [], [], [];
    }

    method AcceptConnection(fd: nat)
      modifies this
      ensures Contents() == Step(old(Contents()), Accept(fd))
    {
      connections := connections + [Connection(Kept(fd), [])];
    }

    method SendQmi(body: string, fd: Descriptor)
      modifies this
      ensures Contents() == Step(old(Contents()), Ask(Request(fd, body)))
    {
      if control == [] {
        wire := wire + [Request(fd, body)];
      }
      control := control + [Request(fd, body)];
    }

    method RecvControl(response: bool, r: Reply)
      modifies this
      ensures Contents() == Step(old(Contents()), if response then Answer(r) else Indication)
    {
      if response && control != [] {
        ServeHead(r);
      }
      if control != [] {
        WriteHead();
      }
    }

    // One turn of that loop: the reply goes out and the client's id table is brought up to date.
    method ServeOne(i: nat, fd: Descriptor, r: Reply)
      requires i < |connections|
      modifies `connections, `replies
      ensures old(connections[i].fd) != fd ==> connections == old(connections) && replies == old(replies)
      ensures old(connections[i].fd) == fd ==>
                && connections == old(connections[i := Connection(fd, Booked(connections[i].clients, r))])
                && replies == old(replies) + [Delivery(fd, r)]
    {
      if connections[i].fd == fd {
        replies := replies + [Delivery(fd, r)];
        var clients := Book(connections[i].clients, r);
        connections := connections[i := Connection(connections[i].fd, clients)];
      }
    }

    // The loop that answers the queue's head, and its removal.
    method ServeHead(r: Reply)
      requires control != []
      modifies `connections, `control, `replies
      ensures Contents() == Settle(old(Contents()), r)
    {
      var head := control[0];
      var i := 0;
      ghost var was := connections;
      PartlyEnds(was, head.fd, r);
      while i < |connections|
        invariant i <= |connections| == |was|
        invariant connections == Partly(was, i, head.fd, r)
        invariant Wrote(replies, old(replies), was, i, head.fd, Delivery(head.fd, r))
        invariant control == old(control)
      {
        ServeNext(was, i, head.fd, r);
        WroteNext(replies, old(replies), was, i, head.fd, Delivery(head.fd, r));
        ServeOne(i, head.fd, r);
        i := i + 1;
      }
      WroteAll(replies, old(replies), was, head.fd, Delivery(head.fd, r));
      control := control[1..];
    }

    method WriteHead()
      requires control != []
      modifies `wire
      ensures Contents() == Resend(old(Contents()))
    {
      var head := control[0];
      var i := 0;
      while i < |connections|
        invariant i <= |connections|
        invariant Wrote(wire, old(wire), connections, i, head.fd, head)
      {
        WroteNext(wire, old(wire), connections, i, head.fd, head);
        if connections[i].fd == head.fd {
          wire := wire + [head];
        }
        i := i + 1;
      }
      WroteAll(wire, old(wire), connections, head.fd, head);
    }

    // The inner walk: one copy for each matching id of one connection.
    method NotifyClient(fd: Descriptor, clients: seq<Client>, n: Note)
      modifies `notes
      ensures notes == old(notes) + NotesOne(fd, clients, n)
    {
      var j := 0;
      while j < |clients|
        invariant j <= |clients| && notes == old(notes) + NotesOne(fd, clients[..j], n)
      {
        assert clients[..j + 1] == clients[..j] + [clients[j]];
        NotesOneAppend(fd, clients[..j], clients[j], n);
        if n.client.service == clients[j].service && (n.client.id == 0 || n.client.id == clients[j].id) {
          notes := notes + [Delivery(fd, n)];
        }
        j := j + 1;
      }
      assert clients[..j] == clients;
    }

    method RecvData(n: Note)
      modifies `notes
      ensures Contents() == Step(old(Contents()), Data(n))
    {
      var i := 0;
      while i < |connections|
        invariant i <= |connections| && notes == old(notes) + Notes(connections[..i], n)
      {
        assert connections[..i + 1] == connections[..i] + [connections[i]];
        NotesAppend(connections[..i], connections[i], n);
        NotifyClient(connections[i].fd, connections[i].clients, n);
        i := i + 1;
      }
      assert connections[..i] == connections;
    }

    method CleanupConnection(fd: Descriptor)
      modifies this
      ensures Contents() == Step(old(Contents()), Hangup(fd))
    {
      var i := 0;
      while i < |connections| && connections[i].fd != fd
        invariant i <= |connections|
        invariant forall j :: 0 <= j < i ==> connections[j].fd != fd
      {
        i := i + 1;
      }
      FindFdFirst(connections, fd, i);
      if i < |connections| {
        var k := 0;
        while k < |control| && control[k].fd != fd
          invariant k <= |control|
          invariant forall j :: 0 <= j < k ==> control[j].fd != fd
        {
          k := k + 1;
        }
        if k < |control| {
          DropFirstAt(control, fd, k);
          control := control[..k] + control[k + 1..];
        } else {
          DropNone(control, fd);
        }
        connections := connections[..i] + connections[i + 1..];
      }
    }
  }
}

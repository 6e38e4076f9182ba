/**
 * The QMI proxy (fibocom-dial/src/fibo_qmimsg_server.c:493-578, 630-727): many clients share one control
 * channel. The device is always writable here, so every write counts as made; a run is a list of events of
 * the poll loop.
 */
module ProxyModel {
  // A descriptor as the server keeps it, in one byte.
  type Descriptor = n: nat | n < 256

  datatype Kind = GetClientId | ReleaseClientId | Other
  datatype Client = Client(service: nat, id: nat)
  // A control response; `ok` when both its result and its error code are zero.
  datatype Reply = Reply(kind: Kind, ok: bool, client: Client, body: string)
  datatype Request = Request(fd: Descriptor, body: string)
  datatype Delivery<T> = Delivery(fd: Descriptor, what: T)
  datatype Note = Note(client: Client, body: string)

  datatype Connection = Connection(fd: Descriptor, clients: seq<Client>)
  // The two lists of the server, and what it has written so far: control requests to the device, control
  // replies and service messages to clients.
  datatype Server = Server(connections: seq<Connection>, control: seq<Request>, wire: seq<Request>,
                           replies: seq<Delivery<Reply>>, notes: seq<Delivery<Note>>)

  datatype Event =
    | Accept(fd: nat)                  // the listening socket hands out a descriptor, 493-510
    | Ask(request: Request)            // a client's control request, 706-720
    | Answer(reply: Reply)             // a control response from the device, 652-676
    | Indication                       // any other control message from the device, 678-688
    | Data(note: Note)                 // a service message from the device, 690-703
    | Hangup(gone: Descriptor)         // 514-547

  // The byte kept for a descriptor.
  function Kept(fd: nat): Descriptor { fd % 256 }

  const IDLE := Server([], [], [], [], [])

  // ---- one connection ----

  function Without(clients: seq<Client>, c: Client): (rest: seq<Client>)
    ensures multiset(rest) == multiset(clients) - multiset{c}
  {
    if clients == [] then []
    else if clients[0] == c then
      assert clients == [clients[0]] + clients[1..];
      clients[1..]
    else
      assert clients == [clients[0]] + clients[1..];
      [clients[0]] + Without(clients[1..], c)
  }

  // The id table after one reply.
  function Booked(clients: seq<Client>, r: Reply): seq<Client> {
    if !r.ok then clients
    else match r.kind
      case GetClientId => clients + [r.client]
      case ReleaseClientId => Without(clients, r.client)
      case Other => clients
  }

  // ---- all connections ----

  function Serve(cs: seq<Connection>, fd: Descriptor, r: Reply): seq<Connection> {
    if cs == [] then []
    else [if cs[0].fd == fd then Connection(fd, Booked(cs[0].clients, r)) else cs[0]] + Serve(cs[1..], fd, r)
  }

  // One copy of `what` for each connection with this descriptor.
  function Copies<T>(cs: seq<Connection>, fd: Descriptor, what: T): seq<T> {
    if cs == [] then []
    else (if cs[0].fd == fd then [what] else []) + Copies(cs[1..], fd, what)
  }

  predicate Wants(c: Client, n: Note) {
    n.client.service == c.service && (n.client.id == 0 || n.client.id == c.id)
  }

  function NotesOne(fd: Descriptor, clients: seq<Client>, n: Note): seq<Delivery<Note>> {
    if clients == [] then []
    else (if Wants(clients[0], n) then [Delivery(fd, n)] else []) + NotesOne(fd, clients[1..], n)
  }

  function Notes(cs: seq<Connection>, n: Note): seq<Delivery<Note>> {
    if cs == [] then [] else NotesOne(cs[0].fd, cs[0].clients, n) + Notes(cs[1..], n)
  }

  function DropFirst(control: seq<Request>, fd: Descriptor): seq<Request> {
    if control == [] then []
    else if control[0].fd == fd then control[1..]
    else [control[0]] + DropFirst(control[1..], fd)
  }

  function FindFd(cs: seq<Connection>, fd: Descriptor): (i: nat)
    ensures i <= |cs|
    ensures i < |cs| ==> cs[i].fd == fd
  {
    if cs == [] || cs[0].fd == fd then 0 else 1 + FindFd(cs[1..], fd)
  }

  // ---- the server ----

  function Resend(s: Server): Server {
    if s.control == [] then s
    else Server(s.connections, s.control, s.wire + Copies(s.connections, s.control[0].fd, s.control[0]),
                s.replies, s.notes)
  }

  function Settle(s: Server, r: Reply): Server {
    if s.control == [] then s
    else
      var fd := s.control[0].fd;
      Server(Serve(s.connections, fd, r), s.control[1..], s.wire,
             s.replies + Copies(s.connections, fd, Delivery(fd, r)), s.notes)
  }

  function Enqueue(s: Server, q: Request): Server {
    Server(s.connections, s.control + [q], if s.control == [] then s.wire + [q] else s.wire, s.replies, s.notes)
  }

  function Leave(s: Server, fd: Descriptor): Server {
    var i := FindFd(s.connections, fd);
    if i == |s.connections| then s
    else Server(s.connections[..i] + s.connections[i + 1..], DropFirst(s.control, fd), s.wire, s.replies, s.notes)
  }

  function Step(s: Server, e: Event): Server {
    match e
    case Accept(fd) =>
      Server(s.connections + [Connection(Kept(fd), [])], s.control, s.wire, s.replies, s.notes)
    case Ask(q) => Enqueue(s, q)
    case Answer(r) => Resend(Settle(s, r))
    case Indication => Resend(s)
    case Data(n) => Server(s.connections, s.control, s.wire, s.replies, s.notes + Notes(s.connections, n))
    case Hangup(fd) => Leave(s, fd)
  }

  function Run(run: seq<Event>): Server {
    if run == [] then IDLE else Step(Run(run[..|run| - 1]), run[|run| - 1])
  }
}

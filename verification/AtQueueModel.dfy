/** The AT request queue of fm160d/src/atq.c as a machine over events.

    Every elementary thing the queue does (accept, refuse, take, send, report, release) is an event;
    `Next` says in which state an event may happen and what it leaves behind.  A trace is legal when
    it replays from the empty queue.  The class in AtQueue.dfy runs the re-entrant C code and keeps a
    legal trace of everything it did, so what is proved here of legal traces holds of every run. */
module AtQueueModel {
  import opened Options

  type Prio = p: nat | p <= 2
  const INTERACTIVE: Prio := 0
  const STATE: Prio := 1
  const POLL: Prio := 2

  const MAX_DEPTH: nat := 24
  const STARVE_MS: nat := 30000
  const RETRY_MS: nat := 3000
  const PROMPT_TIMEOUT_MS: nat := 10000
  const CMD_MAX: nat := 256
  const END_MAX: nat := 32
  const PAYLOAD_MAX: nat := 1088
  const PORT_MAX: nat := 64
  const TWO_64: nat := 0x1_0000_0000_0000_0000

  datatype Status = Ok | Error | Timeout | NoPort

  /** `prio` is the field the C code rewrites on promotion; `asked` remembers the priority it was submitted with. */
  datatype Req = Req(id: nat, prio: Prio, asked: Prio, submitMs: nat, job: Job)

  /** What a request sends, where, and whether anyone is told. */
  datatype Job = Job(
    cmd: string, endFlag: string, timeoutMs: nat, silent: bool, prompt: string, payload: string, port: string,
    hasCb: bool)

  /** The arguments of one submission. */
  datatype Order = Order(
    prio: Prio, cmd: string, endFlag: string, timeoutMs: int, hasCb: bool, silent: bool,
    port: Option<string>, prompt: string, payload: string)

  /** The parts of the daemon state, and the clock, that the queue reads. */
  datatype Env = Env(
    enabled: bool, portFound: bool, port: string, quiet: bool, quietUntilMs: nat, atState: nat, nowMs: nat, ubus: bool)

  datatype Msg = Msg(response: Option<string>, status: Option<string>, endFlag: Option<string>)

  /** One synchronous call: the bus refuses it, or its reply handler has run exactly once before it returns. */
  datatype Answer = Refused | Replied(msg: Option<Msg>)

  datatype Wire = Wire(target: string, raw: bool, value: string, secs: nat, endFlag: string, waitMs: nat)

  datatype Rc = Success | Again | NoSpace

  datatype Stage = Fresh | Prompted | Settled(status: Status) | Reported

  datatype Flight = Flight(req: Req, stage: Stage)

  datatype Sys = Sys(queue: seq<Req>, wire: Option<Flight>, nextId: nat, known: bool, retryMs: nat, env: Env)

  datatype Event =
    | World(env: Env)                           // the clock and the daemon state moved on
    | Declined(order: Order, rc: Rc)            // a submission was refused
    | Accepted(req: Req, victim: Option<Req>)   // a submission was queued, perhaps evicting another
    | Taken(req: Req)                           // chosen, possibly promoted, put on the wire
    | Stranded(req: Req)                        // chosen while there is no port: reported NoPort
    | Flushed(req: Req)                         // reported NoPort by a reset
    | Lookup(found: bool)                       // the transport object was looked up
    | NotReady(id: nat)                         // there is no transport to send on
    | Sent(id: nat, wire: Wire, answer: Answer) // one exchange with the transport
    | Finished(id: nat, status: Status)         // reported to its submitter
    | Released(id: nat)                         // the wire is free again
    | Hinted                                    // the bus connection was lost: look the transport up afresh

  // ---------------------------------------------------------------- reading requests and replies

  function Fit(s: string, size: nat): string
    requires size > 0
  {
    if |s| < size then s else s[..size - 1]
  }

  predicate OccursAt(s: string, part: string, i: int) { 0 <= i <= |s| - |part| && s[i..i + |part|] == part }

  predicate Contains(s: string, part: string) { exists i | 0 <= i <= |s| :: OccursAt(s, part, i) }

  predicate Is(o: Option<string>, s: string) { o.Some? && o.value == s }

  /** The verdict on a final reply: the text decides before the transport's own status. */
  function Classify(msg: Option<Msg>): Status {
    match msg
    case None => Timeout
    case Some(m) =>
      if m.response.Some? && Contains(m.response.value, "ERROR") then Error
      else if Is(m.status, "success") then Ok
      else Timeout
  }

  /** What the first stage of a two-stage request leads to. */
  function AfterPrompt(prompt: string, answer: Answer): Stage {
    match answer
    case Refused => Settled(Timeout)
    case Replied(None) => Settled(Timeout)
    case Replied(Some(m)) =>
      if m.response.Some? && Contains(m.response.value, "ERROR") then Settled(Error)
      else if prompt != "" && Is(m.endFlag, prompt) then Prompted
      else if Is(m.status, "success") then Settled(Error)
      else Settled(Timeout)
  }

  function AfterFinal(answer: Answer): Stage {
    match answer
    case Refused => Settled(Timeout)
    case Replied(msg) => Settled(Classify(msg))
  }

  predicate TwoStage(req: Req) { req.job.payload != "" }

  function Seconds(ms: nat): nat { if (ms + 999) / 1000 < 1 then 1 else (ms + 999) / 1000 }

  function Target(req: Req, env: Env): string { if req.job.port != "" then req.job.port else env.port }

  function CommandWire(req: Req, env: Env): Wire {
    if TwoStage(req) then
      Wire(Target(req, env), false, req.job.cmd, Seconds(PROMPT_TIMEOUT_MS),
           if req.job.prompt != "" then req.job.prompt else ">", PROMPT_TIMEOUT_MS + 2000)
    else
      Wire(Target(req, env), false, req.job.cmd, Seconds(req.job.timeoutMs), req.job.endFlag, req.job.timeoutMs + 2000)
  }

  function PayloadWire(req: Req, env: Env): Wire {
    Wire(Target(req, env), true, req.job.payload, Seconds(req.job.timeoutMs), req.job.endFlag, req.job.timeoutMs + 2000)
  }

  // ---------------------------------------------------------------- submission

  predicate QuietActive(env: Env) { env.quiet && env.nowMs < env.quietUntilMs }

  /** The checks made before a request record exists. */
  function Gate(order: Order, env: Env): Rc {
    if !env.enabled then Again
    else if order.port.None? &&
            (!env.portFound || (order.prio == POLL && (QuietActive(env) || env.atState == 2))) then Again
    else if |order.payload| >= PAYLOAD_MAX then NoSpace
    else Success
  }

  function MakeJob(order: Order): Job {
    Job(Fit(order.cmd, CMD_MAX), Fit(order.endFlag, END_MAX), if order.timeoutMs > 0 then order.timeoutMs else 3000,
        order.silent,
        if order.payload == "" then "" else Fit(if order.prompt != "" then order.prompt else ">", END_MAX),
        order.payload, if order.port.Some? then Fit(order.port.value, PORT_MAX) else "", order.hasCb)
  }

  function MakeReq(order: Order, id: nat, env: Env): Req {
    Req(id, order.prio, order.prio, env.nowMs, MakeJob(order))
  }

  predicate SamePoll(a: Req, b: Req) { a.prio == POLL && b.prio == POLL && a.job.cmd == b.job.cmd }

  predicate Duplicate(want: Req, queue: seq<Req>, wire: Option<Flight>) {
    || (exists i | 0 <= i < |queue| :: SamePoll(queue[i], want))
    || (wire.Some? && SamePoll(wire.value.req, want))
  }

  function Depth(s: Sys): nat { |s.queue| + if s.wire.Some? then 1 else 0 }

  /** `k` holds the first request of the highest `prio` number: the oldest of the least urgent class. */
  predicate IsVictim(queue: seq<Req>, k: nat) {
    && k < |queue|
    && (forall i | 0 <= i < |queue| :: queue[i].prio <= queue[k].prio)
    && (forall i | 0 <= i < k :: queue[i].prio < queue[k].prio)
  }

  /** `k` holds the first request of the lowest `prio` number: the one dispatched next. */
  predicate IsBest(queue: seq<Req>, k: nat) {
    && k < |queue|
    && (forall i | 0 <= i < |queue| :: queue[k].prio <= queue[i].prio)
    && (forall i | 0 <= i < k :: queue[k].prio < queue[i].prio)
  }

  predicate BestIs(queue: seq<Req>, req: Req) { exists k: nat | k < |queue| :: IsBest(queue, k) && queue[k] == req }

  predicate VictimIs(queue: seq<Req>, req: Req) { exists k: nat | k < |queue| :: IsVictim(queue, k) && queue[k] == req }

  function Without(queue: seq<Req>, id: nat): (r: seq<Req>)
    ensures |r| <= |queue|
    ensures forall x :: x in r ==> x in queue
  {
    if queue == [] then [] else if queue[0].id == id then queue[1..] else [queue[0]] + Without(queue[1..], id)
  }

  // ---------------------------------------------------------------- dispatch

  function Elapsed(now: nat, since: nat): int { if now >= since then now - since else now - since + TWO_64 }

  predicate Starved(req: Req, env: Env) { req.prio == POLL && Elapsed(env.nowMs, req.submitMs) > STARVE_MS }

  function Promote(req: Req, env: Env): Req { if Starved(req, env) then req.(prio := STATE) else req }

  predicate Homeless(req: Req, env: Env) { req.job.port == "" && !env.portFound }

  predicate WireAt(s: Sys, id: nat, stage: Stage) {
    s.wire.Some? && s.wire.value.req.id == id && s.wire.value.stage == stage
  }

  // ---------------------------------------------------------------- the machine

  const START: Sys := Sys([], None, 1, false, 0, Env(false, false, "", false, 0, 0, 0, false))

  /** The wire is free, or its request has been reported and its callback is running.  The transport is
      synchronous, so there is nothing else that could submit. */
  predicate Open(s: Sys) { s.wire.Some? ==> s.wire.value.stage == Reported }

  predicate MayAccept(s: Sys, req: Req, victim: Option<Req>) {
    && Open(s) && req.id == s.nextId && req.prio == req.asked
    && !Duplicate(req, s.queue, s.wire)
    && match victim
       case None => Depth(s) < MAX_DEPTH
       case Some(v) => Depth(s) >= MAX_DEPTH && VictimIs(s.queue, v) && v.prio > req.prio
  }

  function Next(s: Sys, e: Event): Option<Sys> {
    match e
    case World(env) => Some(s.(env := env))
    case Declined(order, rc) =>
      if rc == Success then None
      else if Gate(order, s.env) != Success then if rc == Gate(order, s.env) then Some(s) else None
      else
        var req := MakeReq(order, s.nextId, s.env);
        if Duplicate(req, s.queue, s.wire) then
          if rc == Again then Some(s.(nextId := s.nextId + 1)) else None
        else if Depth(s) >= MAX_DEPTH && rc == NoSpace &&
                (forall i | 0 <= i < |s.queue| :: s.queue[i].prio <= order.prio) then
          Some(s.(nextId := s.nextId + 1))
        else None
    case Accepted(req, victim) =>
      if !MayAccept(s, req, victim) then None
      else
        var kept := if victim.Some? then Without(s.queue, victim.value.id) else s.queue;
        Some(s.(queue := kept + [req], nextId := s.nextId + 1))
    case Taken(req) =>
      if s.wire.None? && BestIs(s.queue, req) && !Homeless(req, s.env) then
        Some(s.(queue := Without(s.queue, req.id), wire := Some(Flight(Promote(req, s.env), Fresh))))
      else None
    case Stranded(req) =>
      if s.wire.None? && BestIs(s.queue, req) && Homeless(req, s.env) then
        Some(s.(queue := Without(s.queue, req.id)))
      else None
    case Flushed(req) =>
      if s.queue != [] && s.queue[0] == req then Some(s.(queue := s.queue[1..])) else None
    case Lookup(found) =>
      if !s.known && s.env.ubus && s.env.nowMs >= s.retryMs then
        Some(s.(known := found, retryMs := s.env.nowMs + RETRY_MS))
      else None
    case NotReady(id) =>
      if WireAt(s, id, Fresh) && !s.known && (!s.env.ubus || s.env.nowMs < s.retryMs) then
        Some(s.(wire := Some(s.wire.value.(stage := Settled(Timeout)))))
      else None
    case Sent(id, wire, answer) =>
      if WireAt(s, id, Fresh) && s.known && wire == CommandWire(s.wire.value.req, s.env) then
        var req := s.wire.value.req;
        var stage := if TwoStage(req) then AfterPrompt(req.job.prompt, answer) else AfterFinal(answer);
        Some(s.(wire := Some(Flight(req, stage)), known := answer.Replied?))
      else if WireAt(s, id, Prompted) && wire == PayloadWire(s.wire.value.req, s.env) then
        Some(s.(wire := Some(Flight(s.wire.value.req, AfterFinal(answer))), known := s.known && answer.Replied?))
      else None
    case Finished(id, status) =>
      if WireAt(s, id, Settled(status)) then Some(s.(wire := Some(s.wire.value.(stage := Reported)))) else None
    case Released(id) =>
      if WireAt(s, id, Reported) then Some(s.(wire := None)) else None
    case Hinted => Some(s.(known := false, retryMs := 0))
  }

  function Replay(trace: seq<Event>): Option<Sys> {
    if trace == [] then Some(START)
    else
      var before := Replay(trace[..|trace| - 1]);
      if before.None? then None else Next(before.value, trace[|trace| - 1])
  }

  lemma ReplayStep(trace: seq<Event>, e: Event)
    ensures Replay(trace + [e]) == if Replay(trace).None? then None else Next(Replay(trace).value, e)
  {
    assert (trace + [e])[..|trace + [e]| - 1] == trace;
  }

  /** Every prefix of a legal trace is legal. */
  lemma {:induction false} PrefixLegal(trace: seq<Event>, n: nat)
    requires n <= |trace| && Replay(trace).Some?
    ensures Replay(trace[..n]).Some?
    decreases |trace|
  {
    if n == |trace| {
      assert trace[..n] == trace;
    } else {
      var shorter := trace[..|trace| - 1];
      assert shorter[..n] == trace[..n];
      PrefixLegal(shorter, n);
    }
  }
}

/** The queue of fm160d/src/atq.c as it runs: one object, updated in place, whose methods re-enter each
    other through the synchronous transport and the callbacks of its users. */
module AtQueueCode {
  import opened AtQueueModel
  import opened AtQueueTheorems
  import opened Options

  /** What the outside world does at one of its turns: how the pending exchange ends, what the clock and the
      daemon state are afterwards, whether the bus connection was lost, and what a callback submits.  A list
      of turns stands for any finite run; past its end exchanges are refused and callbacks submit nothing. */
  datatype Turn = Turn(found: bool, answer: Answer, env: Env, lost: bool, submits: seq<Order>)

  /** What the rest of the daemon calls from outside: the queue's own operations, and the time between them. */
  datatype Call = Submission(order: Order) | Reset | Hint | Pass(env: Env)

  class AtQueue {
    var queue: seq<Req>
    var inflight: Option<Req>
    var nextId: nat
    var known: bool
    var retryMs: nat
    var env: Env
    var turns: seq<Turn>
    ghost var stage: Stage
    ghost var trace: seq<Event>

    ghost function View(): Sys
      reads this
    {
      Sys(queue, if inflight.Some? then Some(Flight(inflight.value, stage)) else None, nextId, known, retryMs, env)
    }

    ghost predicate Valid()
      reads this
    {
      Replay(trace) == Some(View())
    }

    constructor (turns: seq<Turn>)
      ensures Valid() && trace == [] && this.turns == turns
    {
      queue, inflight, nextId, known, retryMs := [], None, 1, false, 0;
      env, this.turns := START.env, turns;
      stage, trace := Fresh, [];
    }

    ghost method Log(e: Event)
      modifies this`trace
      requires Replay(trace).Some?
      ensures trace == old(trace) + [e]
      ensures Replay(trace) == Next(old(Replay(trace)).value, e)
    {
      ReplayStep(trace, e);
      trace := trace + [e];
    }

    /** The clock and the daemon state change outside the queue. */
    method SetEnv(e: Env)
      requires Valid()
      modifies this`env, this`trace
      ensures Valid() && env == e && trace == old(trace) + [World(e)]
    {
      Log(World(e));
      env := e;
    }

    /** The transport object is forgotten, and may be looked up again at once. */
    method HintReconnect()
      requires Valid()
      modifies this`known, this`retryMs, this`trace
      ensures Valid() && !known && retryMs == 0 && trace == old(trace) + [Hinted]
    {
      Log(Hinted);
      known, retryMs := false, 0;
    }

    /** What one turn of the world does to the daemon itself. */
    method MoveOn(t: Turn)
      requires Valid()
      modifies this`env, this`known, this`retryMs, this`trace
      ensures Valid() && env == t.env && old(trace) <= trace
      ensures known == (old(known) && !t.lost)
    {
      SetEnv(t.env);
      if t.lost { HintReconnect(); }
    }

    function DepthNow(): nat
      reads this`queue, this`inflight
    {
      |queue| + if inflight.Some? then 1 else 0
    }

    method IsDuplicate(want: Req) returns (dup: bool)
      ensures dup <==> want.prio == POLL && Duplicate(want, View().queue, View().wire)
    {
      if want.prio != POLL { return false; }
      for i := 0 to |queue|
        invariant forall j | 0 <= j < i :: !SamePoll(queue[j], want)
      {
        if queue[i].prio == POLL && queue[i].job.cmd == want.job.cmd { return true; }
      }
      dup := inflight.Some? && inflight.value.prio == POLL && inflight.value.job.cmd == want.job.cmd;
    }

    /** The eviction scan: a later entry replaces the candidate only when it is strictly less urgent. */
    method PickVictim() returns (k: nat)
      ensures queue == [] ==> k == 0
      ensures queue != [] ==> IsVictim(queue, k)
    {
      k := 0;
      for i := 0 to |queue|
        invariant i == 0 ==> k == 0
        invariant i > 0 ==> IsVictim(queue[..i], k)
      {
        if queue[i].prio > queue[k].prio { k := i; }
      }
      assert queue[..|queue|] == queue;
    }

    /** The dispatch scan: a later entry replaces the candidate only when it is strictly more urgent. */
    method PickBest() returns (k: nat)
      ensures queue == [] ==> k == 0
      ensures queue != [] ==> IsBest(queue, k)
    {
      k := 0;
      for i := 0 to |queue|
        invariant i == 0 ==> k == 0
        invariant i > 0 ==> IsBest(queue[..i], k)
      {
        if queue[i].prio < queue[k].prio { k := i; }
      }
      assert queue[..|queue|] == queue;
    }

    /** Look for the transport if it is not known and the retry time has come. */
    method DaemonReady() returns (ready: bool)
      requires Valid()
      modifies this`known, this`retryMs, this`trace
      ensures Valid() && old(trace) <= trace
      ensures ready == known
      ensures !ready ==> !env.ubus || env.nowMs < retryMs
    {
      if known { return true; }
      if !env.ubus { return false; }
      if env.nowMs < retryMs { return false; }
      var found := turns != [] && turns[0].found;
      Log(Lookup(found));
      retryMs := env.nowMs + RETRY_MS;
      known := found;
      ready := found;
    }

    /** One exchange with the transport, and the passing of the time it took. */
    method SendAt(wire: Wire) returns (answer: Answer)
      requires Valid() && inflight.Some?
      requires stage == Fresh ==> known && wire == CommandWire(inflight.value, env)
      requires stage == Prompted ==> wire == PayloadWire(inflight.value, env)
      requires stage == Fresh || stage == Prompted
      modifies this
      ensures Valid() && old(trace) <= trace
      ensures |turns| <= old(|turns|)
      ensures queue == old(queue) && inflight == old(inflight) && nextId == old(nextId)
      ensures stage == if old(stage) == Fresh && TwoStage(inflight.value)
                       then AfterPrompt(inflight.value.job.prompt, answer) else AfterFinal(answer)
      ensures known == (old(known) && answer.Replied? && (old(turns) == [] || !old(turns)[0].lost))
    {
      answer := if turns == [] then Refused else turns[0].answer;
      Log(Sent(inflight.value.id, wire, answer));
      stage := if stage == Fresh && TwoStage(inflight.value)
               then AfterPrompt(inflight.value.job.prompt, answer) else AfterFinal(answer);
      known := known && answer.Replied?;
      if turns != [] {
        var t := turns[0];
        turns := turns[1..];
        MoveOn(t);
      }
    }

    /** The user's callback: it may change the daemon state and submit any number of requests. */
    method Callback(hasCb: bool)
      requires Valid() && (inflight.Some? ==> stage == Reported)
      modifies this
      ensures Valid() && old(trace) <= trace
      ensures inflight == old(inflight) && (inflight.Some? ==> stage == Reported)
      ensures if old(turns) == [] then unchanged(this) else |turns| < old(|turns|)
      decreases |turns|, 0, 0
    {
      if turns == [] { return; }
      var t := turns[0];
      turns := turns[1..];
      MoveOn(t);
      if !hasCb { return; }
      ghost var n := |turns|;
      for i := 0 to |t.submits|
        invariant Valid() && old(trace) <= trace && |turns| <= n
        invariant inflight == old(inflight) && (inflight.Some? ==> stage == Reported)
      {
        var _ := Submit(t.submits[i]);
      }
    }

    /** Retire the request on the wire: report it, free the wire, start the next one. */
    method Finish(status: Status)
      requires Valid() && inflight.Some? && stage == Settled(status)
      modifies this
      ensures Valid() && old(trace) + [Finished(old(inflight.value.id), status)] <= trace
      ensures |turns| <= old(|turns|) && (old(turns) == [] || |turns| < old(|turns|))
      ensures inflight.None? && queue == []
      decreases |turns|, DepthNow(), 0
    {
      var req := inflight.value;
      Log(Finished(req.id, status));
      stage := Reported;
      Callback(req.job.hasCb);
      FreeWire();
      Dispatch();
    }

    /** The request on the wire has been reported and is given back. */
    method FreeWire()
      requires Valid() && inflight.Some? && stage == Reported
      modifies this`inflight, this`trace
      ensures Valid() && inflight == None && trace == old(trace) + [Released(old(inflight.value.id))]
    {
      Log(Released(inflight.value.id));
      inflight := None;
    }

    /** Send the request on the wire; `rc` is non-zero when it could not even be handed over. */
    method Issue() returns (rc: Rc)
      requires Valid() && inflight.Some? && stage == Fresh
      modifies this
      ensures Valid() && old(trace) <= trace && |turns| <= old(|turns|)
      ensures rc == Success ==> inflight.None? && queue == []
      ensures rc != Success ==> inflight == old(inflight) && queue == old(queue) && stage == Settled(Timeout)
      decreases |turns|, DepthNow(), 1
    {
      var req := inflight.value;
      var ready := DaemonReady();
      if !ready {
        Log(NotReady(req.id));
        stage := Settled(Timeout);
        return Again;
      }
      var answer := SendAt(CommandWire(req, env));
      if !TwoStage(req) {
        if answer.Refused? { return NoSpace; }
        Finish(Classify(answer.msg));
        return Success;
      }
      var stage1 := AfterPrompt(req.job.prompt, answer);
      if stage1 != Prompted {
        Finish(stage1.status);
        return Success;
      }
      answer := SendAt(PayloadWire(req, env));
      Finish(if answer.Refused? then Timeout else Classify(answer.msg));
      return Success;
    }

    /** Put the chosen request on the wire and see it through. */
    method Launch(best: Req)
      requires Valid() && inflight.None? && BestIs(queue, best) && !Homeless(best, env)
      modifies this
      ensures Valid() && old(trace) + [Taken(best)] <= trace && |turns| <= old(|turns|)
      ensures inflight.None? && queue == []
      decreases |turns|, DepthNow(), 2
    {
      Shorter(queue, best);
      Log(Taken(best));
      queue := Without(queue, best.id);
      inflight, stage := Some(Promote(best, env)), Fresh;
      var rc := Issue();
      if rc != Success {
        Finish(Timeout);
      }
    }

    /** Start the next request if the wire is free. */
    method Dispatch()
      requires Valid() && (inflight.Some? ==> stage == Reported)
      modifies this
      ensures Valid() && old(trace) <= trace && |turns| <= old(|turns|)
      ensures old(inflight).Some? ==> unchanged(this)
      ensures old(inflight).None? ==> inflight.None? && queue == []
      decreases |turns|, DepthNow(), 3
    {
      if inflight.Some? || queue == [] { return; }
      var k := PickBest();
      var best := queue[k];
      if best.job.port != "" || env.portFound {
        Launch(best);
        return;
      }
      Shorter(queue, best);
      Log(Stranded(best));
      queue := Without(queue, best.id);
      Callback(best.job.hasCb);
      Dispatch();
    }

    /** Find room for `req`: none needed, or the victim that makes it, or no room at all. */
    method MakeRoom(req: Req) returns (room: bool, victim: Option<Req>)
      requires req.id == nextId && req.prio == req.asked && !Duplicate(req, View().queue, View().wire)
      requires inflight.Some? ==> stage == Reported
      ensures room ==> MayAccept(View(), req, victim)
      ensures !room ==> Depth(View()) >= MAX_DEPTH && forall i | 0 <= i < |queue| :: queue[i].prio <= req.prio
    {
      victim := None;
      if DepthNow() < MAX_DEPTH { return true, None; }
      var k := PickVictim();
      if queue == [] || queue[k].prio <= req.prio { return false, None; }
      return true, Some(queue[k]);
    }

    /** Put an accepted request at the end, with its victim, if any, taken out. */
    method Accept(req: Req, victim: Option<Req>)
      requires Valid() && MayAccept(View(), req, victim)
      modifies this`queue, this`nextId, this`trace
      ensures Valid() && trace == old(trace) + [Accepted(req, victim)]
    {
      ghost var kept := Enqueued(View(), req, victim);
      NextAccepted(View(), req, victim);
      Log(Accepted(req, victim));
      nextId := nextId + 1;
      queue := (if victim.Some? then Without(queue, victim.value.id) else queue) + [req];
      assert View() == kept;
    }

    /** Turn a request away; its id is used up once it has been made. */
    method Decline(order: Order, rc: Rc, made: bool)
      requires Valid() && Next(View(), Declined(order, rc)).Some? && (made <==> Gate(order, env) == Success)
      modifies this`nextId, this`trace
      ensures Valid() && trace == old(trace) + [Declined(order, rc)]
    {
      Log(Declined(order, rc));
      if made { nextId := nextId + 1; }
    }

    /** Submit one request. */
    method Submit(order: Order) returns (rc: Rc)
      requires Valid() && (inflight.Some? ==> stage == Reported)
      modifies this
      ensures Valid() && old(trace) < trace && |turns| <= old(|turns|)
      ensures inflight == old(inflight) && (inflight.Some? ==> stage == Reported)
      ensures rc != Success ==> trace == old(trace) + [Declined(order, rc)]
      ensures rc != Success ==> queue == old(queue) && turns == old(turns)
      ensures old(Gate(order, env)) != Success ==> rc == old(Gate(order, env))
      ensures rc == Success ==>
                && trace[|old(trace)|].Accepted?
                && trace[|old(trace)|].req == MakeReq(order, old(nextId), old(env))
                && (inflight.None? ==> queue == [])
      decreases |turns|, DepthNow() + 1, 4
    {
      rc := Gate(order, env);
      if rc != Success {
        Decline(order, rc, false);
        return;
      }
      var req := MakeReq(order, nextId, env);
      var dup := IsDuplicate(req);
      if Duplicate(req, View().queue, View().wire) { assert req.prio == POLL; }
      if dup {
        Decline(order, Again, true);
        return Again;
      }
      var room, victim := MakeRoom(req);
      if !room {
        Decline(order, NoSpace, true);
        return NoSpace;
      }
      Accept(req, victim);
      Dispatch();
    }

    /** Drop everything that is queued, reporting each request; the callbacks submit nothing. */
    method StateReset()
      requires Valid()
      modifies this
      ensures Valid() && old(trace) <= trace
      ensures queue == [] && inflight == old(inflight) && stage == old(stage)
      ensures trace == old(trace) + seq(|old(queue)|, i requires 0 <= i < |old(queue)| => Flushed(old(queue)[i]))
    {
      ghost var all := queue;
      ghost var n := 0;
      while queue != []
        invariant Valid() && n <= |all| && queue == all[n..]
        invariant inflight == old(inflight) && stage == old(stage)
        invariant trace == old(trace) + seq(n, i requires 0 <= i < n => Flushed(all[i]))
        decreases |queue|
      {
        Log(Flushed(queue[0]));
        queue := queue[1..];
        n := n + 1;
      }
    }

    /** Any list of calls from outside: after each of them nothing is left waiting or on the wire, and so every
        request that was ever accepted has been reported, or was evicted, exactly once. */
    method Serve(calls: seq<Call>)
      requires Valid() && inflight == None && queue == []
      modifies this
      ensures Valid() && old(trace) <= trace && inflight == None && queue == []
      ensures forall id :: Settles(trace, id)
    {
      for i := 0 to |calls|
        invariant Valid() && old(trace) <= trace && inflight == None && queue == []
      {
        match calls[i]
        case Submission(order) => var _ := Submit(order);
        case Reset => StateReset();
        case Hint => HintReconnect();
        case Pass(e) => SetEnv(e);
      }
      forall id ensures Settles(trace, id) { IdleSettles(trace, id); }
    }
  }

  /** What an acceptance leaves of the queue. */
  function Enqueued(s: Sys, req: Req, victim: Option<Req>): Sys {
    Sys((if victim.Some? then Without(s.queue, victim.value.id) else s.queue) + [req],
        s.wire, s.nextId + 1, s.known, s.retryMs, s.env)
  }

  lemma NextAccepted(s: Sys, req: Req, victim: Option<Req>)
    requires MayAccept(s, req, victim)
    ensures Next(s, Accepted(req, victim)) == Some(Enqueued(s, req, victim))
  {
  }

  lemma {:induction false} Shorter(queue: seq<Req>, r: Req)
    requires r in queue
    ensures |Without(queue, r.id)| == |queue| - 1
  {
    if queue[0].id != r.id { Shorter(queue[1..], r); }
  }
}

/** What the AT request queue sends for a request, and what it reports of the answers (fm160d/src/atq.c:140-355). */
module AtQueueAnswers {
  import opened AtQueueModel
  import opened AtQueueTheorems
  import opened Options

  // ---------------------------------------------------------------- the verdict

  ghost predicate Says(text: string, word: string) { exists a, b :: text == a + word + b }

  /** The modem's text holds an error. */
  ghost predicate Errs(a: Answer) {
    a.Replied? && a.msg.Some? && a.msg.value.response.Some? && Says(a.msg.value.response.value, "ERROR")
  }

  /** The transport calls the exchange a success. */
  predicate Succeeds(a: Answer) { a.Replied? && a.msg.Some? && a.msg.value.status == Some("success") }

  /** The modem asks for the payload. */
  predicate AsksFor(a: Answer, prompt: string) {
    prompt != "" && a.Replied? && a.msg.Some? && a.msg.value.endFlag == Some(prompt)
  }

  /** Exchanges end a request, or the lack of a transport does. */
  predicate Ends(e: Event) { e.Sent? || e.NotReady? }

  /** What `status` says of the event that settled the request.  Text with an error in it is an error whatever the
      transport calls it; a success is a final exchange without such text; a command that was to end in a prompt
      has failed if the modem calls it done; all else is silence. */
  ghost predicate Verdict(req: Req, e: Event, status: Status) {
    match e
    case NotReady(id) => id == req.id && status == Timeout
    case Sent(id, wire, answer) =>
      var first := req.job.payload != "" && !wire.raw;
      && id == req.id && status != NoPort
      && (status == Error <==> Errs(answer) || (first && Succeeds(answer)))
      && (status == Ok <==> !first && Succeeds(answer) && !Errs(answer))
      && (first ==> Errs(answer) || !AsksFor(answer, req.job.prompt))
    case _ => false
  }

  lemma ContainsSays(text: string, word: string)
    ensures Contains(text, word) <==> Says(text, word)
  {
    if Contains(text, word) {
      var i :| 0 <= i <= |text| && OccursAt(text, word, i);
      assert text == text[..i] + word + text[i + |word|..];
    }
    if a, b :| text == a + word + b {
      assert text[|a|..|a| + |word|] == word;
      assert OccursAt(text, word, |a|);
    }
  }

  lemma ErrsIs(a: Answer)
    ensures Errs(a) <==> a.Replied? && a.msg.Some? && a.msg.value.response.Some?
                         && Contains(a.msg.value.response.value, "ERROR")
  {
    if a.Replied? && a.msg.Some? && a.msg.value.response.Some? {
      ContainsSays(a.msg.value.response.value, "ERROR");
    }
  }

  lemma SettledBy(s: Sys, e: Event)
    requires Next(s, e).Some? && Next(s, e).value.wire.Some? && Next(s, e).value.wire.value.stage.Settled?
    ensures var w := Next(s, e).value.wire.value;
            if Ends(e) then Verdict(w.req, e, w.stage.status) else s.wire == Some(w)
  {
    if e.Sent? { ErrsIs(e.answer); }
  }

  /** The last exchange, or the last failure to make one, decided. */
  ghost predicate Decided(trace: seq<Event>, i: nat, w: Flight) {
    && i < |trace| && w.stage.Settled? && Verdict(w.req, trace[i], w.stage.status)
    && forall m | i < m < |trace| :: !Ends(trace[m])
  }

  lemma {:induction false} SettledHasVerdict(trace: seq<Event>) returns (i: nat)
    requires Replay(trace).Some? && Replay(trace).value.wire.Some? && Replay(trace).value.wire.value.stage.Settled?
    ensures Decided(trace, i, Replay(trace).value.wire.value)
  {
    var n := |trace| - 1;
    SettledBy(Replay(trace[..n]).value, trace[n]);
    if Ends(trace[n]) {
      i := n;
    } else {
      i := SettledHasVerdict(trace[..n]);
    }
  }

  /** Every report in every run is the verdict on the latest exchange before it, which was made for the request
      that is reported. */
  lemma ReportedAs(trace: seq<Event>, k: nat) returns (i: nat)
    requires Replay(trace).Some? && k < |trace| && trace[k].Finished?
    ensures Replay(trace[..k]).Some? && Replay(trace[..k]).value.wire.Some?
    ensures var req := Replay(trace[..k]).value.wire.value.req;
            req.id == trace[k].id && i < k && Verdict(req, trace[i], trace[k].status)
    ensures forall m | i < m < k :: !Ends(trace[m])
  {
    StepAt(trace, k);
    i := SettledHasVerdict(trace[..k]);
    assert forall m | i < m < k :: trace[..k][m] == trace[m];
  }

  /** The payload follows if and only if the modem asks for it and its text holds no error. */
  lemma PayloadFollowsExactly(s: Sys, e: Event)
    requires Next(s, e).Some? && e.Sent? && !e.wire.raw && s.wire.Some? && s.wire.value.req.job.payload != ""
    ensures var w := Next(s, e).value.wire;
            w.Some? && (w.value.stage == Prompted
                        <==> AsksFor(e.answer, s.wire.value.req.job.prompt) && !Errs(e.answer))
  {
    ErrsIs(e.answer);
  }

  // ---------------------------------------------------------------- what is sent

  /** Whole seconds, at least one, that cover the milliseconds and less than one second more. */
  predicate Covers(secs: nat, ms: nat) {
    secs >= 1 && ms <= 1000 * secs && (secs > 1 ==> 1000 * secs < ms + 1000)
  }

  lemma SecondsCover(ms: nat)
    ensures Covers(Seconds(ms), ms)
  {
  }

  /** What an exchange carries: the request's own port or else the daemon's, its command or else its payload, and
      the time that was asked for, which the bus gives two seconds more. */
  predicate Carries(s: Sys, req: Req, w: Wire) {
    var job := req.job;
    var first := job.payload != "" && !w.raw;
    var ms := if first then 10000 else job.timeoutMs;
    && w.target == (if job.port != "" then job.port else s.env.port)
    && w.value == (if w.raw then job.payload else job.cmd)
    && w.endFlag == (if !first then job.endFlag else if job.prompt != "" then job.prompt else ">")
    && Covers(w.secs, ms) && w.waitMs == ms + 2000
  }

  lemma WireCarries(s: Sys, e: Event)
    requires Next(s, e).Some? && e.Sent?
    ensures s.wire.Some? && s.wire.value.req.id == e.id && Carries(s, s.wire.value.req, e.wire)
  {
    SecondsCover(10000);
    SecondsCover(s.wire.value.req.job.timeoutMs);
  }

  lemma SentSays(trace: seq<Event>, k: nat)
    requires Replay(trace).Some? && k < |trace| && trace[k].Sent?
    ensures Replay(trace[..k]).Some? && Replay(trace[..k]).value.wire.Some?
    ensures var s := Replay(trace[..k]).value;
            trace[k].id == s.wire.value.req.id && Carries(s, s.wire.value.req, trace[k].wire)
  {
    StepAt(trace, k);
    WireCarries(Replay(trace[..k]).value, trace[k]);
  }

  /** So the bus waits at least a second longer than the transport. */
  lemma BusWaitsLonger(s: Sys, req: Req, w: Wire)
    requires Carries(s, req, w)
    ensures w.waitMs >= 1000 * w.secs + 1000
  {
  }

  /** How urgent a request is when it goes on the wire: as it was asked for, but a poll that waited for more than
      30 s goes as a command of the daemon's own; so does one whose clock went back. */
  predicate Urgency(r: Req, now: nat, prio: Prio) {
    && (r.submitMs <= now ==> prio == if r.asked == POLL && now - r.submitMs > 30000 then STATE else r.asked)
    && (now < r.submitMs < 0x8000_0000_0000_0000 ==> prio == if r.asked == POLL then STATE else r.asked)
  }

  lemma TakenStep(s: Sys, r: Req)
    requires Inv(s) && Next(s, Taken(r)).Some?
    ensures var w := Next(s, Taken(r)).value.wire;
            && w.Some? && w.value.stage == Fresh && w.value.req.id == r.id && w.value.req.job == r.job
            && w.value.req.asked == r.asked && (r.job.port != "" || s.env.portFound)
            && Urgency(r, s.env.nowMs, w.value.req.prio)
  {
    DispatchIsBest(s, Taken(r));
  }

  /** A request goes on the wire as it was queued, and only one that has somewhere to go does. */
  lemma TakenSays(trace: seq<Event>, k: nat)
    requires Replay(trace).Some? && k < |trace| && trace[k].Taken?
    ensures Replay(trace[..k]).Some? && Replay(trace[..k + 1]).Some? && Replay(trace[..k + 1]).value.wire.Some?
    ensures var s, r, sent := Replay(trace[..k]).value, trace[k].req, Replay(trace[..k + 1]).value.wire.value;
            && sent.stage == Fresh && sent.req.id == r.id && sent.req.job == r.job && sent.req.asked == r.asked
            && (r.job.port != "" || s.env.portFound) && Urgency(r, s.env.nowMs, sent.req.prio)
  {
    StepAt(trace, k);
    ReplayKeeps(trace[..k]);
    TakenStep(Replay(trace[..k]).value, trace[k].req);
  }

  /** A request is dropped for want of a port only where it names none and the daemon has found none. */
  lemma StrandedSays(trace: seq<Event>, k: nat)
    requires Replay(trace).Some? && k < |trace| && trace[k].Stranded?
    ensures Replay(trace[..k]).Some?
    ensures trace[k].req.job.port == "" && !Replay(trace[..k]).value.env.portFound
  {
    StepAt(trace, k);
  }

  lemma {:induction false} BestExists(queue: seq<Req>) returns (k: nat)
    requires queue != []
    ensures IsBest(queue, k) && forall j: nat | IsBest(queue, j) :: j == k
  {
    k := 0;
    if |queue| > 1 {
      var n := |queue| - 1;
      k := BestExists(queue[..n]);
      if queue[n].prio < queue[k].prio { k := n; }
    }
  }

  /** While something is queued exactly one request is next; with the wire free it goes on the wire, or is dropped for
      want of a port, and nothing else is. */
  lemma DispatchOneWay(s: Sys) returns (next: Req)
    requires s.queue != []
    ensures next in s.queue && forall r | r in s.queue :: next.prio <= r.prio
    ensures forall r :: Next(s, Taken(r)).Some? <==>
              s.wire == None && r == next && (r.job.port != "" || s.env.portFound)
    ensures forall r :: Next(s, Stranded(r)).Some? <==>
              s.wire == None && r == next && r.job.port == "" && !s.env.portFound
  {
    var k := BestExists(s.queue);
    next := s.queue[k];
    forall r ensures BestIs(s.queue, r) <==> r == next {
      assert IsBest(s.queue, k);
    }
  }

  // ---------------------------------------------------------------- the transport

  /** The clock at event `i`. */
  function NowAt(trace: seq<Event>, i: nat): nat
    requires i <= |trace| && Replay(trace[..i]).Some?
  {
    Replay(trace[..i]).value.env.nowMs
  }

  ghost predicate NoHint(trace: seq<Event>, i: nat) { forall m | i < m < |trace| :: trace[m] != Hinted }

  lemma RetryStep(s: Sys, e: Event)
    requires Next(s, e).Some?
    ensures Next(s, e).value.retryMs
         == if e.Lookup? then s.env.nowMs + 3000 else if e == Hinted then 0 else s.retryMs
    ensures e.Lookup? ==> s.env.nowMs >= s.retryMs
  {
  }

  lemma Earlier(trace: seq<Event>, i: nat)
    requires i + 1 < |trace| && NoHint(trace, i)
    ensures var before := trace[..|trace| - 1];
            before[i] == trace[i] && before[..i] == trace[..i] && NoHint(before, i) && trace[|trace| - 1] != Hinted
  {
  }

  lemma {:induction false} RetryKept(trace: seq<Event>, i: nat)
    requires Replay(trace).Some? && i < |trace| && trace[i].Lookup? && NoHint(trace, i)
    ensures Replay(trace[..i]).Some? && Replay(trace).value.retryMs >= NowAt(trace, i) + 3000
    decreases |trace|
  {
    var n := |trace| - 1;
    RetryStep(Replay(trace[..n]).value, trace[n]);
    if i < n {
      Earlier(trace, i);
      RetryKept(trace[..n], i);
    }
  }

  /** The transport is looked up at most every three seconds, unless the bus connection was lost in between. */
  lemma LookupsApart(trace: seq<Event>, i: nat, j: nat)
    requires Replay(trace).Some? && i < j < |trace| && trace[i].Lookup? && trace[j].Lookup?
    requires forall m | i < m < j :: trace[m] != Hinted
    ensures Replay(trace[..i]).Some? && Replay(trace[..j]).Some? && NowAt(trace, j) >= NowAt(trace, i) + 3000
  {
    StepAt(trace, i);
    StepAt(trace, j);
    var before := trace[..j];
    assert before[i] == trace[i] && before[..i] == trace[..i];
    RetryKept(before, i);
    RetryStep(Replay(before).value, trace[j]);
  }

  /** After a lost connection it may be looked up at once. */
  lemma HintFreesLookup(s: Sys, found: bool)
    requires s.env.ubus
    ensures Next(s, Hinted).Some? && Next(Next(s, Hinted).value, Lookup(found)).Some?
  {
  }

  /** A request on the wire always has one way to go: to a known transport it is sent, whatever comes of it; an
      unknown one is looked up, or the request fails, as the time and the bus have it, and never both. */
  lemma FreshOneWay(s: Sys, id: nat, answer: Answer)
    requires WireAt(s, id, Fresh)
    ensures s.known <==> exists w :: Next(s, Sent(id, w, answer)).Some?
    ensures !s.known <==> Next(s, NotReady(id)).Some? || exists found :: Next(s, Lookup(found)).Some?
    ensures !(Next(s, NotReady(id)).Some? && exists found :: Next(s, Lookup(found)).Some?)
  {
    if s.known {
      assert Next(s, Sent(id, CommandWire(s.wire.value.req, s.env), answer)).Some?;
    } else if s.env.ubus && s.env.nowMs >= s.retryMs {
      assert Next(s, Lookup(true)).Some?;
    }
  }

  /** The transport was found at `i`, and no exchange was refused and no connection lost since. */
  ghost predicate FoundSince(trace: seq<Event>, i: nat) {
    && i < |trace| && trace[i] == Lookup(true)
    && forall m | i < m < |trace| :: trace[m] != Hinted && !(trace[m].Sent? && trace[m].answer == Refused)
  }

  lemma KnownStep(s: Sys, e: Event)
    requires Next(s, e).Some? && Next(s, e).value.known
    ensures e == Lookup(true) || (s.known && e != Hinted && !(e.Sent? && e.answer == Refused))
  {
  }

  lemma {:induction false} KnownFrom(trace: seq<Event>) returns (i: nat)
    requires Replay(trace).Some? && Replay(trace).value.known
    ensures FoundSince(trace, i)
  {
    var n := |trace| - 1;
    KnownStep(Replay(trace[..n]).value, trace[n]);
    if trace[n] == Lookup(true) {
      i := n;
    } else {
      i := KnownFrom(trace[..n]);
    }
  }

  /** A command is sent only to a transport that was found, and has neither refused an exchange nor been lost since. */
  lemma SentToFound(trace: seq<Event>, k: nat) returns (i: nat)
    requires Replay(trace).Some? && k < |trace| && trace[k].Sent? && !trace[k].wire.raw
    ensures i < k && trace[i] == Lookup(true)
    ensures forall m | i < m < k :: trace[m] != Hinted && !(trace[m].Sent? && trace[m].answer == Refused)
  {
    StepAt(trace, k);
    i := KnownFrom(trace[..k]);
    assert forall m | i < m < k :: trace[..k][m] == trace[m];
  }

  lemma {:induction false} RetryFrom(trace: seq<Event>) returns (i: nat)
    requires Replay(trace).Some? && Replay(trace).value.retryMs > 0
    ensures i < |trace| && trace[i].Lookup? && NoHint(trace, i) && Replay(trace[..i]).Some?
    ensures Replay(trace).value.retryMs == NowAt(trace, i) + 3000
  {
    var n := |trace| - 1;
    var before := trace[..n];
    RetryStep(Replay(before).value, trace[n]);
    if trace[n].Lookup? {
      i := n;
    } else {
      i := RetryFrom(before);
      LongerNoHint(trace, i);
    }
  }

  lemma LongerNoHint(trace: seq<Event>, i: nat)
    requires i + 1 < |trace| && trace[|trace| - 1] != Hinted && NoHint(trace[..|trace| - 1], i)
    ensures NoHint(trace, i) && trace[..|trace| - 1][..i] == trace[..i]
  {
    var before := trace[..|trace| - 1];
    assert forall m | 0 <= m < |before| :: before[m] == trace[m];
  }

  /** A request fails for want of a transport only without a bus, or within three seconds of the last lookup. */
  lemma NotReadySays(trace: seq<Event>, k: nat) returns (i: nat)
    requires Replay(trace).Some? && k < |trace| && trace[k].NotReady?
    ensures Replay(trace[..k]).Some?
    ensures Replay(trace[..k]).value.env.ubus ==>
              i < k && trace[i].Lookup? && Replay(trace[..i]).Some? && NowAt(trace, k) < NowAt(trace, i) + 3000
  {
    StepAt(trace, k);
    i := 0;
    var before := trace[..k];
    if Replay(before).value.env.ubus {
      i := RetryFrom(before);
      assert before[..i] == trace[..i];
    }
  }

  // ---------------------------------------------------------------- what is let in

  /** What is let in while the daemon manages the modem: everything that names its own port; else nothing without a
      port, and polls only outside a quiet window and while the modem answers. */
  lemma AdmittedExactly(order: Order, env: Env)
    ensures Gate(order, env) != Again <==>
            env.enabled && (order.port == None ==>
              env.portFound
              && (order.prio == POLL ==> !(env.quiet && env.nowMs < env.quietUntilMs) && env.atState != 2))
    ensures Gate(order, env) == Success <==> Gate(order, env) != Again && |order.payload| < 1088
  {
  }

  predicate Full(s: Sys) { |s.queue| + (if s.wire.Some? then 1 else 0) == 24 }

  predicate LessUrgent(s: Sys, order: Order) { exists i | 0 <= i < |s.queue| :: s.queue[i].prio > order.prio }

  /** A poll for the same command is still outstanding as one. */
  ghost predicate Pending(s: Sys, order: Order, cmd: string) {
    order.prio == POLL && exists r :: Outstanding(s, r) && r.prio == POLL && r.job.cmd == cmd
  }

  lemma PendingIs(s: Sys, order: Order, req: Req)
    requires req.prio == order.prio
    ensures Duplicate(req, s.queue, s.wire) <==> Pending(s, order, req.job.cmd)
  {
    if i :| 0 <= i < |s.queue| && SamePoll(s.queue[i], req) {
      assert Outstanding(s, s.queue[i]);
    } else if s.wire.Some? && SamePoll(s.wire.value.req, req) {
      assert Outstanding(s, s.wire.value.req);
    }
    if r :| Outstanding(s, r) && r.prio == POLL && r.job.cmd == req.job.cmd && order.prio == POLL {
      if r in s.queue {
        var i :| 0 <= i < |s.queue| && s.queue[i] == r;
        assert SamePoll(s.queue[i], req);
      }
    }
  }

  lemma {:induction false} WorstExists(queue: seq<Req>) returns (k: nat)
    requires queue != []
    ensures IsVictim(queue, k)
  {
    k := 0;
    if |queue| > 1 {
      var n := |queue| - 1;
      k := WorstExists(queue[..n]);
      if queue[n].prio > queue[k].prio { k := n; }
    }
  }

  /** Which end a submission that is let in can meet. */
  ghost predicate OneWay(s: Sys, order: Order) {
    var req := MakeReq(order, s.nextId, s.env);
    var dup := Pending(s, order, req.job.cmd);
    && (Next(s, Declined(order, Again)).Some? <==> dup)
    && (Next(s, Accepted(req, None)).Some? <==> !dup && !Full(s))
    && ((exists v :: Next(s, Accepted(req, Some(v))).Some?) <==> !dup && Full(s) && LessUrgent(s, order))
    && (Next(s, Declined(order, NoSpace)).Some? <==> !dup && Full(s) && !LessUrgent(s, order))
  }

  lemma OneWayIn(s: Sys, order: Order)
    requires Open(s) && Gate(order, s.env) == Success && Depth(s) <= 24
    ensures OneWay(s, order)
  {
    var req := MakeReq(order, s.nextId, s.env);
    PendingIs(s, order, req);
    if !Duplicate(req, s.queue, s.wire) && Full(s) && LessUrgent(s, order) {
      var k := WorstExists(s.queue);
      assert Next(s, Accepted(req, Some(s.queue[k]))).Some?;
    }
  }

  /** Every submission that is let in meets exactly one end, whatever came before: a poll with its like outstanding is
      a duplicate; with room the request is taken as it is; at depth 24 it is taken at the cost of a queued request
      if one is less urgent, and else refused for want of space. */
  lemma AnsweredOneWay(trace: seq<Event>, order: Order)
    requires Replay(trace).Some? && Open(Replay(trace).value) && Gate(order, Replay(trace).value.env) == Success
    ensures OneWay(Replay(trace).value, order)
  {
    ReplayKeeps(trace);
    OneWayIn(Replay(trace).value, order);
  }

  /** One that is not let in is turned away with the reason, and with no other. */
  lemma TurnedAwayOneWay(s: Sys, order: Order, rc: Rc)
    requires Gate(order, s.env) != Success
    ensures Next(s, Declined(order, rc)).Some? <==> rc == Gate(order, s.env)
  {
  }

  /** The request made of a submission is what was submitted, cut to its fields, with the defaults filled in. */
  lemma RequestSays(order: Order, id: nat, env: Env)
    ensures var r := MakeReq(order, id, env);
            && r.id == id && r.prio == r.asked == order.prio && r.submitMs == env.nowMs
            && r.job.cmd <= order.cmd && |r.job.cmd| == (if |order.cmd| < 256 then |order.cmd| else 255)
            && r.job.endFlag <= order.endFlag
            && |r.job.endFlag| == (if |order.endFlag| < 32 then |order.endFlag| else 31)
            && r.job.payload == order.payload && r.job.silent == order.silent && r.job.hasCb == order.hasCb
            && (order.timeoutMs > 0 ==> r.job.timeoutMs == order.timeoutMs)
            && (order.timeoutMs <= 0 ==> r.job.timeoutMs == 3000)
            && (order.port == None ==> r.job.port == "")
            && (order.port.Some? ==>
                  r.job.port <= order.port.value
                  && |r.job.port| == if |order.port.value| < 64 then |order.port.value| else 63)
            && (order.payload == "" ==> r.job.prompt == "")
            && (order.payload != "" && order.prompt == "" ==> r.job.prompt == ">")
            && (order.payload != "" && order.prompt != "" ==> r.job.prompt <= order.prompt && r.job.prompt != "")
  {
  }
}

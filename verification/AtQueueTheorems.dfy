/** What every legal trace of the AT request queue satisfies. */
module AtQueueTheorems {
  import opened AtQueueModel
  import opened Options

  // ---------------------------------------------------------------- the invariant

  ghost predicate Sorted(queue: seq<Req>) {
    forall i, j | 0 <= i < j < |queue| :: queue[i].id < queue[j].id
  }

  ghost predicate Outstanding(s: Sys, r: Req) { r in s.queue || (s.wire.Some? && s.wire.value.req == r) }

  ghost predicate Identified(s: Sys) {
    && Sorted(s.queue)
    && (forall r | r in s.queue :: r.id < s.nextId && r.prio == r.asked)
    && (s.wire.Some? ==> s.wire.value.req.id < s.nextId)
    && (s.wire.Some? ==> forall r | r in s.queue :: r.id != s.wire.value.req.id)
  }

  ghost predicate PollsApart(s: Sys) {
    && (forall a, b | a in s.queue && b in s.queue && SamePoll(a, b) :: a == b)
    && (s.wire.Some? ==> forall a | a in s.queue :: !SamePoll(a, s.wire.value.req))
  }

  ghost predicate Labelled(s: Sys) {
    s.wire.Some? ==> var w := s.wire.value.req; w.prio == w.asked || (w.asked == POLL && w.prio == STATE)
  }

  ghost predicate Inv(s: Sys) { Identified(s) && PollsApart(s) && Labelled(s) && Depth(s) <= MAX_DEPTH }

  lemma SortedCons(r: Req, rest: seq<Req>)
    requires Sorted(rest) && forall x | x in rest :: r.id < x.id
    ensures Sorted([r] + rest)
  {
    forall i, j | 0 <= i < j < |[r] + rest| ensures ([r] + rest)[i].id < ([r] + rest)[j].id {
      assert rest[j - 1] in rest;
    }
  }

  lemma {:induction false} WithoutMembers(queue: seq<Req>, k: nat)
    requires k < |queue| && Sorted(queue)
    ensures var rest := Without(queue, queue[k].id);
            |rest| == |queue| - 1 && Sorted(rest) && forall r :: r in rest <==> r in queue && r.id != queue[k].id
  {
    var tail := queue[1..];
    assert queue == [queue[0]] + tail;
    if k == 0 {
      assert forall i | 0 <= i < |tail| :: tail[i].id != queue[0].id;
    } else {
      WithoutMembers(tail, k - 1);
      SortedCons(queue[0], Without(tail, queue[k].id));
    }
  }

  predicate Removes(e: Event, id: nat) {
    match e
    case Accepted(_, victim) => victim.Some? && victim.value.id == id
    case Taken(req) => req.id == id
    case Stranded(req) => req.id == id
    case Flushed(req) => req.id == id
    case _ => false
  }

  /** What is left of the old queue after an event. */
  function Kept(s: Sys, e: Event): seq<Req> {
    match e
    case Accepted(_, Some(v)) => Without(s.queue, v.id)
    case Taken(req) => Without(s.queue, req.id)
    case Stranded(req) => Without(s.queue, req.id)
    case Flushed(req) => Without(s.queue, req.id)
    case _ => s.queue
  }

  /** Which queue member an event removes, if it removes one. */
  lemma RemovedIndex(s: Sys, e: Event) returns (k: nat)
    requires Next(s, e).Some? && (e.Taken? || e.Stranded? || e.Flushed? || (e.Accepted? && e.victim.Some?))
    ensures k < |s.queue| && s.queue[k] == if e.Accepted? then e.victim.value else e.req
  {
    match e
    case Accepted(_, Some(v)) => k :| k < |s.queue| && IsVictim(s.queue, k) && s.queue[k] == v;
    case Taken(req) => k :| k < |s.queue| && IsBest(s.queue, k) && s.queue[k] == req;
    case Stranded(req) => k :| k < |s.queue| && IsBest(s.queue, k) && s.queue[k] == req;
    case Flushed(req) => k := 0;
  }

  lemma KeptMembers(s: Sys, e: Event)
    requires Identified(s) && Next(s, e).Some?
    ensures Next(s, e).value.queue == Kept(s, e) + if e.Accepted? then [e.req] else []
    ensures Sorted(Kept(s, e))
    ensures forall r :: r in Kept(s, e) <==> r in s.queue && !Removes(e, r.id)
    ensures |Kept(s, e)| <= |s.queue|
    ensures e.Accepted? && e.victim.Some? ==> |Kept(s, e)| == |s.queue| - 1 && e.victim.value in s.queue
    ensures e.Taken? || e.Stranded? || e.Flushed? ==> |Kept(s, e)| == |s.queue| - 1 && e.req in s.queue
  {
    KeptQueue(s, e);
    if e.Taken? || e.Stranded? || e.Flushed? || (e.Accepted? && e.victim.Some?) {
      var k := RemovedIndex(s, e);
      WithoutMembers(s.queue, k);
      KeptIsWithout(s, e, k);
    }
  }

  lemma KeptQueue(s: Sys, e: Event)
    requires Next(s, e).Some?
    ensures Next(s, e).value.queue == Kept(s, e) + if e.Accepted? then [e.req] else []
  {
    assert Kept(s, e) + [] == Kept(s, e);
  }

  lemma KeptIsWithout(s: Sys, e: Event, k: nat)
    requires Next(s, e).Some? && (e.Taken? || e.Stranded? || e.Flushed? || (e.Accepted? && e.victim.Some?))
    requires k < |s.queue| && s.queue[k] == if e.Accepted? then e.victim.value else e.req
    ensures Kept(s, e) == Without(s.queue, s.queue[k].id)
  {
  }

  /** Dropping queue members keeps the invariant. */
  lemma ShrinkKeeps(s: Sys, kept: seq<Req>)
    requires Inv(s) && Sorted(kept) && |kept| <= |s.queue| && forall r | r in kept :: r in s.queue
    ensures Inv(s.(queue := kept))
  {
  }

  lemma AppendKeeps(s: Sys, req: Req)
    requires Inv(s) && req.id == s.nextId && req.prio == req.asked
    requires !Duplicate(req, s.queue, s.wire) && Depth(s) < MAX_DEPTH
    ensures Inv(s.(queue := s.queue + [req], nextId := s.nextId + 1))
  {
    forall a | a in s.queue ensures !SamePoll(a, req) {
      var i :| 0 <= i < |s.queue| && s.queue[i] == a;
    }
  }

  lemma AcceptKeeps(s: Sys, req: Req, victim: Option<Req>)
    requires Inv(s) && MayAccept(s, req, victim)
    ensures Inv(Next(s, Accepted(req, victim)).value)
  {
    var e := Accepted(req, victim);
    KeptMembers(s, e);
    ShrinkKeeps(s, Kept(s, e));
    var s' := s.(queue := Kept(s, e));
    assert !Duplicate(req, s'.queue, s'.wire) by {
      forall i | 0 <= i < |s'.queue| ensures !SamePoll(s'.queue[i], req) {
        assert s'.queue[i] in s.queue;
      }
    }
    AppendKeeps(s', req);
  }

  lemma TakeKeeps(s: Sys, req: Req)
    requires Inv(s) && Next(s, Taken(req)).Some?
    ensures Inv(Next(s, Taken(req)).value)
  {
    KeptMembers(s, Taken(req));
    LaunchKeeps(s, Kept(s, Taken(req)), req, Promote(req, s.env));
  }

  lemma LaunchKeeps(s: Sys, kept: seq<Req>, req: Req, sent: Req)
    requires Inv(s) && s.wire == None && req in s.queue && Sorted(kept) && |kept| < |s.queue|
    requires forall r | r in kept :: r in s.queue && r.id != req.id
    requires sent == req || (sent == req.(prio := STATE) && req.asked == POLL)
    ensures Inv(s.(queue := kept, wire := Some(Flight(sent, Fresh))))
  {
  }

  /** The wire events leave the queue alone and keep the request on the wire. */
  lemma WireKeeps(s: Sys, e: Event)
    requires Inv(s) && Next(s, e).Some? && !e.Accepted? && !e.Taken? && !e.Stranded? && !e.Flushed?
    ensures Inv(Next(s, e).value)
  {
    var t := Next(s, e).value;
    assert t.queue == s.queue && t.nextId >= s.nextId;
    assert t.wire.Some? ==> s.wire.Some? && t.wire.value.req == s.wire.value.req;
  }

  lemma NextKeeps(s: Sys, e: Event)
    requires Inv(s) && Next(s, e).Some?
    ensures Inv(Next(s, e).value)
  {
    if e.Accepted? {
      AcceptKeeps(s, e.req, e.victim);
    } else if e.Taken? {
      TakeKeeps(s, e.req);
    } else if e.Stranded? || e.Flushed? {
      KeptMembers(s, e);
      ShrinkKeeps(s, Kept(s, e));
    } else {
      WireKeeps(s, e);
    }
  }

  lemma {:induction false} ReplayKeeps(trace: seq<Event>)
    requires Replay(trace).Some?
    ensures Inv(Replay(trace).value)
  {
    if trace != [] {
      ReplayKeeps(trace[..|trace| - 1]);
      NextKeeps(Replay(trace[..|trace| - 1]).value, trace[|trace| - 1]);
    }
  }

  // ---------------------------------------------------------------- bounds

  /** In every run the queue and the wire together hold at most 24 requests, and no two requests that
      are at POLL priority carry the same command. */
  lemma Bounds(trace: seq<Event>, a: Req, b: Req)
    requires Replay(trace).Some?
    requires var s := Replay(trace).value; Outstanding(s, a) && Outstanding(s, b)
    ensures var s := Replay(trace).value; |s.queue| + (if s.wire.Some? then 1 else 0) <= 24
    ensures SamePoll(a, b) ==> a == b
  {
    ReplayKeeps(trace);
  }

  /** An eviction happens only at full depth, removes the oldest request of the least urgent class that
      is queued, which is strictly less urgent than the newcomer, and so never an INTERACTIVE one. */
  lemma EvictionIsDownward(trace: seq<Event>, k: nat)
    requires Replay(trace).Some? && k < |trace|
    requires trace[k].Accepted? && trace[k].victim.Some?
    ensures var s := Replay(trace[..k]);
            var v := trace[k].victim.value;
            && s.Some? && |s.value.queue| + (if s.value.wire.Some? then 1 else 0) == 24
            && v in s.value.queue && v.prio > trace[k].req.prio && v.prio != INTERACTIVE
            && forall r | r in s.value.queue :: r.prio < v.prio || (r.prio == v.prio && v.id <= r.id)
  {
    StepAt(trace, k);
    ReplayKeeps(trace[..k]);
    VictimIsWorst(Replay(trace[..k]).value, trace[k].req, trace[k].victim.value);
  }

  lemma VictimIsWorst(s: Sys, req: Req, v: Req)
    requires Inv(s) && Next(s, Accepted(req, Some(v))).Some?
    ensures Depth(s) == MAX_DEPTH && v in s.queue && v.prio > req.prio && v.prio != INTERACTIVE
    ensures forall r | r in s.queue :: r.prio < v.prio || (r.prio == v.prio && v.id <= r.id)
  {
  }

  /** The event at `k` happened in the state its prefix leads to. */
  lemma {:induction false} StepAt(trace: seq<Event>, k: nat)
    requires Replay(trace).Some? && k < |trace|
    ensures Replay(trace[..k]).Some? && Next(Replay(trace[..k]).value, trace[k]).Some?
    ensures Replay(trace[..k + 1]) == Next(Replay(trace[..k]).value, trace[k])
  {
    PrefixLegal(trace, k);
    PrefixLegal(trace, k + 1);
    assert trace[..k + 1][..k] == trace[..k];
  }

  // ---------------------------------------------------------------- exactly once

  datatype Fate = Entered | Told | Evicted

  /** How often event `e` gives request `id` the fate `f`. */
  function Hits(e: Event, id: nat, f: Fate): nat {
    match f
    case Entered => if e.Accepted? && e.req.id == id then 1 else 0
    case Told => if (e.Stranded? || e.Flushed?) && e.req.id == id then 1 else if e.Finished? && e.id == id then 1 else 0
    case Evicted => if e.Accepted? && e.victim.Some? && e.victim.value.id == id then 1 else 0
  }

  function Tally(trace: seq<Event>, id: nat, f: Fate): nat {
    if trace == [] then 0 else Tally(trace[..|trace| - 1], id, f) + Hits(trace[|trace| - 1], id, f)
  }

  ghost function Queued(s: Sys, id: nat): nat { if exists r :: r in s.queue && r.id == id then 1 else 0 }

  function Pending(s: Sys, id: nat): nat {
    if s.wire.Some? && s.wire.value.req.id == id && s.wire.value.stage != Reported then 1 else 0
  }

  lemma QueuedAfter(s: Sys, e: Event, id: nat)
    requires Inv(s) && Next(s, e).Some?
    ensures Queued(Next(s, e).value, id)
            == Queued(s, id) + Hits(e, id, Entered) - if Removes(e, id) then 1 else 0
  {
    var t := Next(s, e).value;
    KeptMembers(s, e);
    assert forall r | r in t.queue :: r in Kept(s, e) || (e.Accepted? && r == e.req);
    assert forall r | r in Kept(s, e) :: r in t.queue;
    if e.Accepted? {
      assert e.req in t.queue;
      if e.victim.Some? { assert e.victim.value in s.queue; }
    }
  }

  /** One event moves a request from one place to exactly one other. */
  lemma NextConserves(s: Sys, e: Event, id: nat)
    requires Inv(s) && Next(s, e).Some?
    ensures var t := Next(s, e).value;
            Queued(t, id) + Pending(t, id) + Hits(e, id, Told) + Hits(e, id, Evicted)
            == Queued(s, id) + Pending(s, id) + Hits(e, id, Entered)
  {
    QueuedAfter(s, e, id);
    var t := Next(s, e).value;
    assert Pending(t, id) == Pending(s, id) + (if e.Taken? && e.req.id == id then 1 else 0)
                             - (if e.Finished? && e.id == id then 1 else 0);
  }

  lemma {:induction false} EnteredBelow(trace: seq<Event>, id: nat)
    requires Replay(trace).Some?
    ensures Tally(trace, id, Entered) <= if id < Replay(trace).value.nextId then 1 else 0
  {
    if trace != [] { EnteredBelow(trace[..|trace| - 1], id); }
  }

  /** Exactly once: at every point of every run, a request that was accepted is in exactly one of four
      places (queued, on the wire unreported, reported once, evicted without a report), and a request
      that was never accepted is in none. */
  lemma {:induction false} ExactlyOnce(trace: seq<Event>, id: nat)
    requires Replay(trace).Some?
    ensures var s := Replay(trace).value;
            && Tally(trace, id, Entered) <= 1
            && Queued(s, id) + Pending(s, id) + Tally(trace, id, Told) + Tally(trace, id, Evicted)
               == Tally(trace, id, Entered)
  {
    EnteredBelow(trace, id);
    if trace != [] {
      var before := trace[..|trace| - 1];
      ExactlyOnce(before, id);
      ReplayKeeps(before);
      NextConserves(Replay(before).value, trace[|trace| - 1], id);
    }
  }

  /** The request, if it was accepted, has been reported or evicted, and that once. */
  predicate Settles(trace: seq<Event>, id: nat) {
    Tally(trace, id, Told) + Tally(trace, id, Evicted) == Tally(trace, id, Entered) <= 1
  }

  /** Whenever nothing is queued and the wire is free, every request accepted so far has met its end. */
  lemma IdleSettles(trace: seq<Event>, id: nat)
    requires Replay(trace).Some? && Replay(trace).value.queue == [] && Replay(trace).value.wire == None
    ensures Settles(trace, id)
  {
    ExactlyOnce(trace, id);
  }

  // ---------------------------------------------------------------- nothing comes back

  ghost predicate Concerns(e: Event, id: nat) {
    match e
    case World(_) => false
    case Declined(_, _) => false
    case Lookup(_) => false
    case Hinted => false
    case Accepted(req, victim) => req.id == id || (victim.Some? && victim.value.id == id)
    case Taken(req) => req.id == id
    case Stranded(req) => req.id == id
    case Flushed(req) => req.id == id
    case NotReady(x) => x == id
    case Sent(x, _, _) => x == id
    case Finished(x, _) => x == id
    case Released(x) => x == id
  }

  /** The memory of `id` has been given back: nothing refers to it any more. */
  ghost predicate Gone(s: Sys, id: nat) {
    && id < s.nextId
    && (forall r | r in s.queue :: r.id != id)
    && (s.wire.Some? ==> s.wire.value.req.id != id)
  }

  predicate Frees(e: Event, id: nat) {
    match e
    case Accepted(_, victim) => victim.Some? && victim.value.id == id
    case Stranded(req) => req.id == id
    case Flushed(req) => req.id == id
    case Released(x) => x == id
    case _ => false
  }

  lemma FreesMakesGone(s: Sys, e: Event, id: nat)
    requires Inv(s) && Next(s, e).Some? && Frees(e, id)
    ensures Gone(Next(s, e).value, id)
  {
    KeptMembers(s, e);
    if e.Accepted? { assert e.victim.value in s.queue; }
  }

  lemma GoneStays(s: Sys, e: Event, id: nat)
    requires Inv(s) && Next(s, e).Some? && Gone(s, id)
    ensures !Concerns(e, id) && Gone(Next(s, e).value, id)
  {
    KeptMembers(s, e);
    if e.Accepted? && e.victim.Some? { assert e.victim.value in s.queue; }
  }

  ghost predicate GoneAt(trace: seq<Event>, k: nat, id: nat) {
    k <= |trace| && Replay(trace[..k]).Some? && Gone(Replay(trace[..k]).value, id)
  }

  lemma GoneStep(trace: seq<Event>, k: nat, id: nat)
    requires Replay(trace).Some? && k < |trace| && GoneAt(trace, k, id)
    ensures GoneAt(trace, k + 1, id) && !Concerns(trace[k], id)
  {
    StepAt(trace, k);
    ReplayKeeps(trace[..k]);
    GoneStays(Replay(trace[..k]).value, trace[k], id);
  }

  lemma {:induction false} GoneForever(trace: seq<Event>, n: nat, m: nat, id: nat)
    requires Replay(trace).Some? && n <= m <= |trace| && GoneAt(trace, n, id)
    ensures GoneAt(trace, m, id)
    decreases m
  {
    if n < m {
      GoneForever(trace, n, m - 1, id);
      GoneStep(trace, m - 1, id);
    }
  }

  /** A request that was evicted, stranded, flushed or released is never touched again, whatever its
      callback submitted. */
  lemma NeverTouchedAgain(trace: seq<Event>, i: nat, j: nat, id: nat)
    requires Replay(trace).Some? && i < j < |trace| && Frees(trace[i], id)
    ensures !Concerns(trace[j], id)
  {
    StepAt(trace, i);
    ReplayKeeps(trace[..i]);
    FreesMakesGone(Replay(trace[..i]).value, trace[i], id);
    GoneForever(trace, i + 1, j, id);
    GoneStep(trace, j, id);
  }

  // ---------------------------------------------------------------- dispatch order

  predicate Dispatches(e: Event) { e.Taken? || e.Stranded? }

  /** Each dispatch takes the least request of the queue by (priority, submission id). */
  lemma DispatchTakesLeast(trace: seq<Event>, k: nat)
    requires Replay(trace).Some? && k < |trace| && Dispatches(trace[k])
    ensures var s := Replay(trace[..k]);
            var best := trace[k].req;
            && s.Some? && best in s.value.queue && best.prio == best.asked
            && forall r | r in s.value.queue && r != best ::
                 best.prio < r.prio || (best.prio == r.prio && best.id < r.id)
  {
    StepAt(trace, k);
    ReplayKeeps(trace[..k]);
    var s := Replay(trace[..k]).value;
    BestIsOldest(s, trace[k]);
    forall r | r in s.queue && r.id == trace[k].req.id ensures r == trace[k].req {
      var i :| 0 <= i < |s.queue| && s.queue[i] == r;
      var j :| 0 <= j < |s.queue| && s.queue[j] == trace[k].req;
    }
  }

  /** Everything of its class that is queued is younger. */
  ghost predicate Older(req: Req, s: Sys) {
    req.id < s.nextId && forall r | r in s.queue && r.asked == req.asked :: req.id < r.id
  }

  ghost predicate Ahead(trace: seq<Event>, s: Sys) {
    forall i | 0 <= i < |trace| && Dispatches(trace[i]) :: Older(trace[i].req, s)
  }

  /** A dispatched request was the oldest of its class, and later submissions are younger still. */
  lemma BestIsOldest(s: Sys, e: Event)
    requires Inv(s) && Next(s, e).Some? && Dispatches(e)
    ensures e.req in s.queue && e.req.prio == e.req.asked
    ensures forall r | r in s.queue && r.id != e.req.id ::
              e.req.prio < r.prio || (e.req.prio == r.prio && e.req.id < r.id)
  {
    DispatchIsBest(s, e);
    var k: nat :| k < |s.queue| && IsBest(s.queue, k) && s.queue[k] == e.req;
    BestLeast(s.queue, k);
  }

  lemma DispatchIsBest(s: Sys, e: Event)
    requires Inv(s) && Next(s, e).Some? && Dispatches(e)
    ensures BestIs(s.queue, e.req) && Sorted(s.queue) && e.req.prio == e.req.asked
  {
  }

  lemma BestLeast(queue: seq<Req>, k: nat)
    requires Sorted(queue) && IsBest(queue, k)
    ensures forall r | r in queue && r.id != queue[k].id ::
              queue[k].prio < r.prio || (queue[k].prio == r.prio && queue[k].id < r.id)
  {
    forall r | r in queue && r.id != queue[k].id
      ensures queue[k].prio < r.prio || (queue[k].prio == r.prio && queue[k].id < r.id)
    {
      var i :| 0 <= i < |queue| && queue[i] == r;
    }
  }

  /** What is queued after an event was queued before it or is the newest request. */
  lemma Newcomers(s: Sys, e: Event)
    requires Inv(s) && Next(s, e).Some?
    ensures var t := Next(s, e).value;
            && s.nextId <= t.nextId
            && forall r | r in t.queue :: (r in s.queue && !Removes(e, r.id)) || r.id == s.nextId < t.nextId
  {
    KeptMembers(s, e);
  }

  lemma OlderStays(req: Req, s: Sys, e: Event)
    requires Inv(s) && Next(s, e).Some? && Older(req, s)
    ensures Older(req, Next(s, e).value)
  {
    Newcomers(s, e);
  }

  lemma DispatchedOlder(s: Sys, e: Event)
    requires Inv(s) && Next(s, e).Some? && Dispatches(e)
    ensures Older(e.req, Next(s, e).value)
  {
    BestIsOldest(s, e);
    Newcomers(s, e);
  }

  lemma AheadStays(trace: seq<Event>, s: Sys, e: Event)
    requires Inv(s) && Next(s, e).Some? && Ahead(trace, s)
    ensures Ahead(trace + [e], Next(s, e).value)
  {
    var longer := trace + [e];
    forall i | 0 <= i < |longer| && Dispatches(longer[i]) ensures Older(longer[i].req, Next(s, e).value) {
      if i < |trace| {
        OlderStays(trace[i].req, s, e);
      } else {
        DispatchedOlder(s, e);
      }
    }
  }

  lemma {:induction false} DispatchedAhead(trace: seq<Event>)
    requires Replay(trace).Some?
    ensures Ahead(trace, Replay(trace).value)
  {
    if trace != [] {
      var n := |trace| - 1;
      DispatchedAhead(trace[..n]);
      ReplayKeeps(trace[..n]);
      var s := Replay(trace[..n]).value;
      AheadStays(trace[..n], s, trace[n]);
      assert trace == trace[..n] + [trace[n]];
    }
  }

  /** Over a whole run the requests submitted at one priority are dispatched in submission order, with or
      without the age promotion. */
  lemma ClassOrder(trace: seq<Event>, i: nat, j: nat)
    requires Replay(trace).Some? && i < j < |trace|
    requires Dispatches(trace[i]) && Dispatches(trace[j]) && trace[i].req.asked == trace[j].req.asked
    ensures trace[i].req.id < trace[j].req.id
  {
    StepAt(trace, j);
    DispatchedAhead(trace[..j]);
    assert trace[..j][i] == trace[i];
    ReplayKeeps(trace[..j]);
  }

  // ---------------------------------------------------------------- the wire

  /** A request that has been sent is out of the queue for good. */
  lemma {:induction false} SentLeavesQueue(trace: seq<Event>, i: nat)
    requires Replay(trace).Some? && i < |trace| && trace[i].Sent?
    ensures var s := Replay(trace).value;
            trace[i].id < s.nextId && forall r | r in s.queue :: r.id != trace[i].id
    decreases |trace|
  {
    var n := |trace| - 1;
    var s := Replay(trace[..n]).value;
    ReplayKeeps(trace[..n]);
    if i == n {
    } else {
      assert trace[..n][i] == trace[i];
      SentLeavesQueue(trace[..n], i);
      StaysAbsent(s, trace[n], trace[i].id);
    }
  }

  /** An identifier that was given out and is not queued is not queued after any event either. */
  lemma StaysAbsent(s: Sys, e: Event, id: nat)
    requires Inv(s) && Next(s, e).Some? && id < s.nextId && forall r | r in s.queue :: r.id != id
    ensures var t := Next(s, e).value; id < t.nextId && forall r | r in t.queue :: r.id != id
  {
    KeptMembers(s, e);
  }

  /** Wire atomicity: in the sequence of exchanges each request is one contiguous block. */
  lemma WireBlocks(trace: seq<Event>, i: nat, j: nat, k: nat)
    requires Replay(trace).Some? && i < j < k < |trace|
    requires trace[i].Sent? && trace[j].Sent? && trace[k].Sent? && trace[i].id == trace[k].id
    ensures trace[j].id == trace[i].id
  {
    if trace[j].id != trace[i].id {
      OvertakenIsGone(trace, i, j);
      GoneForever(trace, j, k, trace[i].id);
      GoneStep(trace, k, trace[i].id);
    }
  }

  /** Once another request is on the wire an earlier one is gone. */
  lemma OvertakenIsGone(trace: seq<Event>, i: nat, j: nat)
    requires Replay(trace).Some? && i < j < |trace| && trace[i].Sent? && trace[j].Sent?
    requires trace[j].id != trace[i].id
    ensures GoneAt(trace, j, trace[i].id)
  {
    StepAt(trace, j);
    SentNamesWire(Replay(trace[..j]).value, trace[j]);
    assert trace[..j][i] == trace[i];
    SentLeavesQueue(trace[..j], i);
  }

  lemma SentNamesWire(s: Sys, e: Event)
    requires Next(s, e).Some? && e.Sent?
    ensures s.wire.Some? && s.wire.value.req.id == e.id
  {
  }

  /** The last exchange so far is the command of `req`, and the modem answered it with the prompt asked for. */
  ghost predicate JustPrompted(trace: seq<Event>, i: nat, req: Req) {
    && i < |trace| && trace[i].Sent? && trace[i].id == req.id && !trace[i].wire.raw
    && AfterPrompt(req.job.prompt, trace[i].answer) == Prompted
    && forall m | i < m < |trace| :: !trace[m].Sent?
  }

  /** A stage becomes Prompted by the answer to the command, and by nothing else. */
  lemma BecomesPrompted(s: Sys, e: Event)
    requires Next(s, e).Some? && Next(s, e).value.wire.Some? && Next(s, e).value.wire.value.stage == Prompted
    ensures var req := Next(s, e).value.wire.value.req;
            if e.Sent? then e.id == req.id && !e.wire.raw && AfterPrompt(req.job.prompt, e.answer) == Prompted
            else s.wire == Some(Flight(req, Prompted))
  {
  }

  lemma {:induction false} PromptedHasPrompt(trace: seq<Event>) returns (i: nat)
    requires Replay(trace).Some? && Replay(trace).value.wire.Some?
    requires Replay(trace).value.wire.value.stage == Prompted
    ensures JustPrompted(trace, i, Replay(trace).value.wire.value.req)
  {
    var n := |trace| - 1;
    BecomesPrompted(Replay(trace[..n]).value, trace[n]);
    if trace[n].Sent? {
      i := n;
    } else {
      i := PromptedHasPrompt(trace[..n]);
    }
  }

  /** A payload is written only right after the modem asked for it, with the prompt of its own command: no
      other exchange falls between the two. */
  lemma PayloadFollowsPrompt(trace: seq<Event>, k: nat) returns (i: nat)
    requires Replay(trace).Some? && k < |trace| && trace[k].Sent? && trace[k].wire.raw
    ensures i < k && trace[i].Sent? && trace[i].id == trace[k].id && !trace[i].wire.raw
    ensures var s := Replay(trace[..k]);
            && s.Some? && s.value.wire.Some? && s.value.wire.value.req.id == trace[k].id
            && AfterPrompt(s.value.wire.value.req.job.prompt, trace[i].answer) == Prompted
            && trace[k].wire == PayloadWire(s.value.wire.value.req, s.value.env)
    ensures forall m | i < m < k :: !trace[m].Sent?
  {
    StepAt(trace, k);
    i := PromptedHasPrompt(trace[..k]);
    assert forall m | i < m < k :: trace[..k][m] == trace[m];
  }

  ghost predicate PromptedAt(trace: seq<Event>, k: nat, req: Req) {
    k <= |trace| && Replay(trace[..k]).Some? && Replay(trace[..k]).value.wire == Some(Flight(req, Prompted))
  }

  lemma PromptedStep(s: Sys, e: Event, req: Req)
    requires Next(s, e).Some? && s.wire == Some(Flight(req, Prompted))
    ensures !e.Sent? ==> Next(s, e).value.wire == s.wire
    ensures e.Sent? ==> e.id == req.id && e.wire == PayloadWire(req, s.env)
  {
  }

  lemma {:induction false} PromptLasts(trace: seq<Event>, i: nat, k: nat, req: Req)
    requires Replay(trace).Some? && i <= k <= |trace| && PromptedAt(trace, i, req)
    requires forall m | i <= m < k :: !trace[m].Sent?
    ensures PromptedAt(trace, k, req)
    decreases k
  {
    if i < k {
      PromptLasts(trace, i, k - 1, req);
      StepAt(trace, k - 1);
      PromptedStep(Replay(trace[..k - 1]).value, trace[k - 1], req);
    }
  }

  /** And once the modem has asked for a payload, the next exchange of the whole run is that payload. */
  lemma PromptThenPayload(trace: seq<Event>, i: nat, k: nat, req: Req)
    requires Replay(trace).Some? && i <= k < |trace| && PromptedAt(trace, i, req)
    requires trace[k].Sent? && forall m | i <= m < k :: !trace[m].Sent?
    ensures trace[k].id == req.id && Replay(trace[..k]).Some?
    ensures trace[k].wire == PayloadWire(req, Replay(trace[..k]).value.env)
  {
    PromptLasts(trace, i, k, req);
    StepAt(trace, k);
    PromptedStep(Replay(trace[..k]).value, trace[k], req);
  }

  // ---------------------------------------------------------------- what the promotion breaks

  /** Two polls for one command that are both outstanding: the one way left is that the older of them is
      on the wire and was promoted, so the duplicate test no longer saw it as a poll. */
  lemma CoalescingExact(trace: seq<Event>, a: Req, b: Req)
    requires Replay(trace).Some? && a.id < b.id && a.asked == b.asked == POLL && a.job.cmd == b.job.cmd
    requires var s := Replay(trace).value; Outstanding(s, a) && Outstanding(s, b)
    ensures var s := Replay(trace).value;
            && s.wire.Some? && s.wire.value.req.asked == POLL && s.wire.value.req.prio == STATE
            && (s.wire.value.req == a || s.wire.value.req == b)
  {
    ReplayKeeps(trace);
    TwoPolls(Replay(trace).value, a, b);
  }

  lemma TwoPolls(s: Sys, a: Req, b: Req)
    requires Inv(s) && a.id < b.id && a.asked == b.asked == POLL && a.job.cmd == b.job.cmd
    requires Outstanding(s, a) && Outstanding(s, b)
    ensures s.wire.Some? && (s.wire.value.req == a || s.wire.value.req == b)
    ensures s.wire.value.req.asked == POLL && s.wire.value.req.prio == STATE
  {
    if a in s.queue && b in s.queue {
      QueuedPollsApart(s, a, b);
    } else {
      WirePollPromoted(s, if s.wire.value.req == a then b else a);
    }
  }

  lemma QueuedPollsApart(s: Sys, a: Req, b: Req)
    requires Inv(s) && a in s.queue && b in s.queue
    requires a.asked == b.asked == POLL && a.job.cmd == b.job.cmd
    ensures a == b
  {
    assert SamePoll(a, b);
  }

  lemma WirePollPromoted(s: Sys, q: Req)
    requires Inv(s) && q in s.queue && s.wire.Some?
    requires q.asked == s.wire.value.req.asked == POLL && q.job.cmd == s.wire.value.req.job.cmd
    ensures s.wire.value.req.prio == STATE
  {
    assert !SamePoll(q, s.wire.value.req);
  }

  /** The request has been promoted on the wire, and no queued poll carries its command. */
  ghost predicate Uncovered(s: Sys, a: Req) {
    && s.wire.Some? && s.wire.value.req == a && a.prio == STATE
    && forall q | q in s.queue :: q.prio == POLL ==> q.job.cmd != a.job.cmd
  }

  /** Exactly when a poll is coalesced: with one for its command outstanding, a poll that passes the gate is
      turned away as a duplicate unless that one was promoted on the wire and none is queued. */
  lemma CoalescedExactly(trace: seq<Event>, a: Req, order: Order)
    requires Replay(trace).Some? && Outstanding(Replay(trace).value, a) && a.asked == POLL
    requires order.prio == POLL && Fit(order.cmd, CMD_MAX) == a.job.cmd
    requires Gate(order, Replay(trace).value.env) == Success
    ensures var s := Replay(trace).value;
            && (Next(s, Declined(order, Again)).Some? <==> !Uncovered(s, a))
            && (Open(s) && Depth(s) < MAX_DEPTH ==>
                  (Next(s, Accepted(MakeReq(order, s.nextId, s.env), None)).Some? <==> Uncovered(s, a)))
  {
    ReplayKeeps(trace);
    var s := Replay(trace).value;
    var want := MakeReq(order, s.nextId, s.env);
    DuplicateExactly(s, a, want);
  }

  lemma DuplicateExactly(s: Sys, a: Req, want: Req)
    requires Inv(s) && Outstanding(s, a) && a.asked == POLL
    requires want.prio == POLL && want.job.cmd == a.job.cmd
    ensures Duplicate(want, s.queue, s.wire) <==> !Uncovered(s, a)
  {
    if Uncovered(s, a) {
      UncoveredPasses(s, a, want);
    } else {
      if a in s.queue {
        QueuedCovers(s, a, want);
      } else if a.prio == STATE {
        var q :| q in s.queue && q.prio == POLL && q.job.cmd == a.job.cmd;
        QueuedCovers(s, q, want);
      }
    }
  }

  lemma UncoveredPasses(s: Sys, a: Req, want: Req)
    requires Uncovered(s, a) && want.job.cmd == a.job.cmd
    ensures !Duplicate(want, s.queue, s.wire)
  {
    forall i | 0 <= i < |s.queue| ensures !SamePoll(s.queue[i], want) {
      assert s.queue[i] in s.queue;
    }
  }

  lemma QueuedCovers(s: Sys, q: Req, want: Req)
    requires q in s.queue && q.prio == want.prio == POLL && q.job.cmd == want.job.cmd
    ensures Duplicate(want, s.queue, s.wire)
  {
    var i :| 0 <= i < |s.queue| && s.queue[i] == q;
    assert SamePoll(s.queue[i], want);
  }

  function ClockAt(now: nat): Env { Env(true, true, "p", false, 0, 0, now, true) }

  function Asked(id: nat, prio: Prio, at: nat, cmd: string): Req {
    Req(id, prio, prio, at, Job(cmd, "", 3000, false, "", "", "", true))
  }

  function Exchange(req: Req, now: nat): Event {
    Sent(req.id, CommandWire(req, ClockAt(now)), Replied(Some(Msg(None, Some("success"), None))))
  }

  lemma Then(trace: seq<Event>, s: Sys, e: Event, t: Sys)
    requires Replay(trace) == Some(s) && Next(s, e) == Some(t)
    ensures Replay(trace + [e]) == Some(t)
  {
    ReplayStep(trace, e);
  }

  /** What becomes of a request that the modem answers: its exchange, the clock, the report, and the clock when
      the callback runs.  The first one finds the transport. */
  function Answered(req: Req, now: nat, later: nat, first: bool): seq<Event> {
    [Taken(req)] + Looked(first) + [Exchange(req, now)] + ToldAt(req.id, later)
  }

  function Looked(first: bool): seq<Event> { if first then [Lookup(true)] else [] }

  function ToldAt(id: nat, later: nat): seq<Event> {
    [World(ClockAt(later)), Finished(id, Ok), World(ClockAt(later))]
  }

  /** The state in which its callback runs. */
  function Retired(s: Sys, req: Req, now: nat, later: nat, first: bool): Sys {
    Sys(Without(s.queue, req.id), Some(Flight(Promote(req, s.env), Reported)), s.nextId, true,
        if first then now + RETRY_MS else s.retryMs, ClockAt(later))
  }

  lemma ToldReplays(trace: seq<Event>, s: Sys, later: nat)
    requires Replay(trace) == Some(s) && s.wire.Some? && s.wire.value.stage == Settled(Ok)
    ensures Replay(trace + ToldAt(s.wire.value.req.id, later))
         == Some(s.(wire := Some(Flight(s.wire.value.req, Reported)), env := ClockAt(later)))
  {
    var w, e := World(ClockAt(later)), Finished(s.wire.value.req.id, Ok);
    var s1 := s.(env := ClockAt(later));
    var s2 := s1.(wire := Some(Flight(s.wire.value.req, Reported)));
    Then(trace, s, w, s1);
    Then(trace + [w], s1, e, s2);
    Then(trace + [w] + [e], s2, w, s2);
    assert trace + [w] + [e] + [w] == trace + ToldAt(s.wire.value.req.id, later);
  }

  lemma Exchanged(trace: seq<Event>, s: Sys, req: Req, now: nat) returns (t: Sys)
    requires Replay(trace) == Some(s) && s.known && s.env == ClockAt(now) && WireAt(s, req.id, Fresh)
    requires !TwoStage(req) && (s.wire.value.req == req || s.wire.value.req == req.(prio := STATE))
    ensures t == Sys(s.queue, Some(Flight(s.wire.value.req, Settled(Ok))), s.nextId, s.known, s.retryMs, s.env)
    ensures Replay(trace + [Exchange(req, now)]) == Some(t)
  {
    t := s.(wire := Some(Flight(s.wire.value.req, Settled(Ok))));
    Then(trace, s, Exchange(req, now), t);
  }

  lemma TakenReplays(trace: seq<Event>, s: Sys, req: Req) returns (t: Sys)
    requires Replay(trace) == Some(s) && s.wire == None && BestIs(s.queue, req) && !Homeless(req, s.env)
    ensures t == Sys(Without(s.queue, req.id), Some(Flight(Promote(req, s.env), Fresh)), s.nextId, s.known, s.retryMs,
                     s.env)
    ensures Replay(trace + [Taken(req)]) == Some(t)
  {
    t := s.(queue := Without(s.queue, req.id), wire := Some(Flight(Promote(req, s.env), Fresh)));
    Then(trace, s, Taken(req), t);
  }

  lemma FoundReplays(trace: seq<Event>, s: Sys, now: nat) returns (t: Sys)
    requires Replay(trace) == Some(s) && !s.known && s.env == ClockAt(now) && s.retryMs <= now
    ensures t == Sys(s.queue, s.wire, s.nextId, true, now + RETRY_MS, s.env)
    ensures Replay(trace + [Lookup(true)]) == Some(t)
  {
    t := s.(known := true, retryMs := now + RETRY_MS);
    Then(trace, s, Lookup(true), t);
  }

  lemma Nothing(trace: seq<Event>)
    ensures trace + [] == trace
  {
  }

  lemma Launched(trace: seq<Event>, s: Sys, req: Req, now: nat, first: bool) returns (t: Sys)
    requires Replay(trace) == Some(s) && s.wire == None && s.known == !first && s.env == ClockAt(now)
    requires BestIs(s.queue, req) && (first ==> s.retryMs <= now)
    ensures t == Sys(Without(s.queue, req.id), Some(Flight(Promote(req, s.env), Fresh)), s.nextId, true,
                     if first then now + RETRY_MS else s.retryMs, s.env)
    ensures Replay(trace + [Taken(req)] + Looked(first)) == Some(t)
  {
    t := TakenReplays(trace, s, req);
    if first {
      t := FoundReplays(trace + [Taken(req)], t, now);
    } else {
      Nothing(trace + [Taken(req)]);
    }
  }

  lemma SettledReplays(trace: seq<Event>, s: Sys, req: Req, now: nat, first: bool) returns (t: Sys)
    requires Replay(trace) == Some(s) && s.wire == None && s.known == !first && s.env == ClockAt(now)
    requires BestIs(s.queue, req) && !TwoStage(req) && (first ==> s.retryMs <= now)
    ensures t.wire == Some(Flight(Promote(req, s.env), Settled(Ok)))
    ensures t.(wire := Some(Flight(t.wire.value.req, Reported)), env := ClockAt(now))
         == Retired(s, req, now, now, first)
    ensures Replay(trace + [Taken(req)] + Looked(first) + [Exchange(req, now)]) == Some(t)
  {
    var ready := Launched(trace, s, req, now, first);
    t := Exchanged(trace + [Taken(req)] + Looked(first), ready, req, now);
  }

  lemma AnsweredReplays(trace: seq<Event>, s: Sys, req: Req, now: nat, later: nat, first: bool)
    requires Replay(trace) == Some(s) && s.wire == None && s.known == !first && s.env == ClockAt(now)
    requires BestIs(s.queue, req) && !TwoStage(req) && (first ==> s.retryMs <= now)
    ensures Replay(trace + Answered(req, now, later, first)) == Some(Retired(s, req, now, later, first))
  {
    var settled := SettledReplays(trace, s, req, now, first);
    ToldReplays(trace + [Taken(req)] + Looked(first) + [Exchange(req, now)], settled, later);
    AnsweredIs(trace, req, now, later, first);
  }

  lemma AnsweredIs(trace: seq<Event>, req: Req, now: nat, later: nat, first: bool)
    ensures trace + [Taken(req)] + Looked(first) + [Exchange(req, now)] + ToldAt(req.id, later)
         == trace + Answered(req, now, later, first)
  {
  }

  /** A command that the modem answers at once. */
  function Begun(): seq<Event> {
    [World(ClockAt(0)), Accepted(Asked(1, STATE, 0, "AT"), None)] + Answered(Asked(1, STATE, 0, "AT"), 0, 0, true)
  }

  lemma BegunReplays()
    ensures Replay(Begun()) == Some(Sys([], Some(Flight(Asked(1, STATE, 0, "AT"), Reported)), 2, true, RETRY_MS,
                                        ClockAt(0)))
  {
    var first := Asked(1, STATE, 0, "AT");
    var t := [World(ClockAt(0))] + [Accepted(first, None)];
    FirstAccepted(first);
    OnlyOneAnswered(t, Sys([first], None, 2, false, 0, ClockAt(0)), first, 0, 0, true);
    assert Begun() == t + Answered(first, 0, 0, true);
  }

  lemma FirstAccepted(req: Req)
    requires req.id == 1 && req.prio == req.asked
    ensures Replay([World(ClockAt(0))] + [Accepted(req, None)]) == Some(Sys([req], None, 2, false, 0, ClockAt(0)))
  {
    var t, s := [World(ClockAt(0))], START.(env := ClockAt(0));
    assert START.queue + [req] == [req] && [] + t == t;
    Then([], START, World(ClockAt(0)), s);
    Then(t, s, Accepted(req, None), Sys([req], None, 2, false, 0, ClockAt(0)));
  }

  /** With nothing else queued the answered request leaves the queue empty. */
  lemma OnlyOneAnswered(trace: seq<Event>, s: Sys, req: Req, now: nat, later: nat, first: bool)
    requires Replay(trace) == Some(s) && s.queue == [req] && s.wire == None && s.known == !first
    requires s.env == ClockAt(now) && !TwoStage(req) && (first ==> s.retryMs <= now)
    ensures Replay(trace + Answered(req, now, later, first))
         == Some(Sys([], Some(Flight(Promote(req, s.env), Reported)), s.nextId, true,
                     if first then now + RETRY_MS else s.retryMs, ClockAt(later)))
  {
    assert IsBest(s.queue, 0) && Without(s.queue, req.id) == [];
    AnsweredReplays(trace, s, req, now, later, first);
  }

  /** Its callback submits a poll and a more urgent command, whose answer comes at `late`: the poll waits. */
  function PollWaits(cmd: string, late: nat): seq<Event> {
    var poll, second := Asked(2, POLL, 0, cmd), Asked(3, STATE, 0, "ATI");
    Begun() + [Accepted(poll, None)] + [Accepted(second, None)] + [Released(1)]
    + Answered(second, 0, late, false) + [Released(3)]
  }

  lemma PollWaitsReplays(cmd: string, late: nat)
    ensures Replay(PollWaits(cmd, late))
         == Some(Sys([Asked(2, POLL, 0, cmd)], None, 4, true, RETRY_MS, ClockAt(late)))
  {
    var poll, second := Asked(2, POLL, 0, cmd), Asked(3, STATE, 0, "ATI");
    var s := Sys([], Some(Flight(Asked(1, STATE, 0, "AT"), Reported)), 2, true, RETRY_MS, ClockAt(0));
    BegunReplays();
    BothSubmitted(Begun(), s, poll, second);
    var t := Begun() + [Accepted(poll, None)] + [Accepted(second, None)] + [Released(1)];
    SecondAnswered(t, poll, second, late);
  }

  lemma SecondAnswered(trace: seq<Event>, poll: Req, second: Req, late: nat)
    requires Replay(trace) == Some(Sys([poll, second], None, 4, true, RETRY_MS, ClockAt(0)))
    requires poll.prio == POLL && poll.id == 2 && second == Asked(3, STATE, 0, "ATI")
    ensures Replay(trace + Answered(second, 0, late, false) + [Released(3)])
         == Some(Sys([poll], None, 4, true, RETRY_MS, ClockAt(late)))
  {
    var s := Sys([poll, second], None, 4, true, RETRY_MS, ClockAt(0));
    assert IsBest(s.queue, 1) && Without(s.queue, 3) == [poll];
    AnsweredReplays(trace, s, second, 0, late, false);
    var s1 := Retired(s, second, 0, late, false);
    Then(trace + Answered(second, 0, late, false), s1, Released(3), s1.(wire := None));
  }

  lemma BothSubmitted(trace: seq<Event>, s: Sys, poll: Req, second: Req)
    requires Replay(trace) == Some(s) && s.queue == [] && s.nextId == 2 && WireAt(s, 1, Reported)
    requires s.wire.value.req.prio == STATE && poll.id == 2 && poll.prio == poll.asked == POLL
    requires second.id == 3 && second.prio == second.asked == STATE
    ensures Replay(trace + [Accepted(poll, None)] + [Accepted(second, None)] + [Released(1)])
         == Some(s.(queue := [poll, second], wire := None, nextId := 4))
  {
    var s1, s2 := s.(queue := [poll], nextId := 3), s.(queue := [poll, second], nextId := 4);
    assert s.queue + [poll] == [poll] && [poll] + [second] == [poll, second];
    Then(trace, s, Accepted(poll, None), s1);
    Then(trace + [Accepted(poll, None)], s1, Accepted(second, None), s2);
    Then(trace + [Accepted(poll, None)] + [Accepted(second, None)], s2, Released(1), s2.(wire := None));
  }

  /** Background polls are not always coalesced: a poll that had to wait for over 30 s is promoted as it is
      taken, and when its callback submits the same poll again, that one is queued beside it. */
  lemma CoalescingFails(cmd: string, late: nat) returns (trace: seq<Event>)
    requires late > STARVE_MS
    ensures Replay(trace).Some?
    ensures var s := Replay(trace).value;
            && s.queue == [Asked(4, POLL, late, cmd)]
            && s.wire == Some(Flight(Asked(2, POLL, 0, cmd).(prio := STATE), Reported))
  {
    var poll, again := Asked(2, POLL, 0, cmd), Asked(4, POLL, late, cmd);
    PollWaitsReplays(cmd, late);
    OnlyOneAnswered(PollWaits(cmd, late), Sys([poll], None, 4, true, RETRY_MS, ClockAt(late)), poll, late, late, false);
    var t := PollWaits(cmd, late) + Answered(poll, late, late, false);
    var s := Sys([], Some(Flight(poll.(prio := STATE), Reported)), 4, true, RETRY_MS, ClockAt(late));
    assert Starved(poll, ClockAt(late)) && s.queue + [again] == [again];
    Then(t, s, Accepted(again, None), s.(queue := [again], nextId := 5));
    trace := t + [Accepted(again, None)];
  }
}

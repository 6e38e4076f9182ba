/** The queue of line events of at-daemon/src/line_events.c as a bounded sequence with drop markers. */
module LineEventModel {

  const CAPACITY: nat := 256
  const DRAIN_BUDGET: nat := 64
  const MAX_LINE: nat := 4096

  datatype Correlation = Idle | Response | Terminal | Ambiguous

  /** What one line is reported with. */
  datatype Body = Body(
    port: string, epoch: nat, sequence: nat, monotonicMs: nat, line: string, commandId: nat, correlation: Correlation)

  datatype Event = Event(body: Body, drop: nat)

  datatype Queue = Queue(events: seq<Event>, drops: nat, pending: nat)

  const EMPTY: Queue := Queue([], 0, 0)

  predicate Long(b: Body) { |b.line| >= MAX_LINE }

  function Enqueue(q: Queue, b: Body): Queue {
    if Long(b) then Queue(q.events, q.drops + 1, q.drops + 1)
    else if |q.events| >= CAPACITY then
      var kept := q.events[1..];
      var stamped := if kept == [] then [] else kept[0 := Event(kept[0].body, q.drops + 1)];
      Queue(stamped + [Event(b, 0)], q.drops + 1, q.drops + 1)
    else Queue(q.events + [Event(b, q.pending)], q.drops, 0)
  }

  function Dequeue(q: Queue): Queue
    requires q.events != []
  {
    Queue(q.events[1..], q.drops, if q.events[0].drop != 0 && q.events[0].drop == q.drops then 0 else q.pending)
  }

  // ---------------------------------------------------------------- runs

  datatype Op = Put(body: Body) | Take

  /** A run so far: the queue, every call of enqueue, and what was delivered. */
  datatype Run = Run(q: Queue, calls: seq<Body>, delivered: seq<Event>)

  function Step(r: Run, op: Op): Run {
    match op
    case Put(b) => Run(Enqueue(r.q, b), r.calls + [b], r.delivered)
    case Take => if r.q.events == [] then r else Run(Dequeue(r.q), r.calls, r.delivered + [r.q.events[0]])
  }

  function After(ops: seq<Op>): Run {
    if ops == [] then Run(EMPTY, [], []) else Step(After(ops[..|ops| - 1]), ops[|ops| - 1])
  }

  // ---------------------------------------------------------------- conservation and order

  /** Everything delivered and everything still queued, in order. */
  function Seen(r: Run): seq<Event> { r.delivered + r.q.events }

  /** Every call is accounted for: delivered, queued, or counted as dropped. */
  lemma {:induction false} Conserved(ops: seq<Op>)
    ensures var r := After(ops);
            |r.calls| == |r.delivered| + |r.q.events| + r.q.drops && |r.q.events| <= CAPACITY
  {
    if ops != [] { Conserved(ops[..|ops| - 1]); }
  }

  /** `at` says, strictly increasing, which call each event of `events` came from. */
  ghost predicate From(events: seq<Event>, calls: seq<Body>, at: seq<nat>) {
    && |at| == |events|
    && (forall i | 0 <= i < |at| :: at[i] < |calls| && calls[at[i]] == events[i].body && !Long(calls[at[i]]))
    && (forall i, j | 0 <= i < j < |at| :: at[i] < at[j])
  }

  lemma FromPlus(events: seq<Event>, calls: seq<Body>, at: seq<nat>, b: Body, e: Event)
    requires From(events, calls, at) && e.body == b && !Long(b)
    ensures From(events + [e], calls + [b], at + [|calls|])
  {
  }

  lemma FromLonger(events: seq<Event>, calls: seq<Body>, at: seq<nat>, b: Body)
    requires From(events, calls, at)
    ensures From(events, calls + [b], at)
  {
  }

  /** Losing the event at `k`, and remarking the one after it, keeps the order. */
  lemma FromMinus(events: seq<Event>, calls: seq<Body>, at: seq<nat>, k: nat, fewer: seq<Event>)
    requires From(events, calls, at) && k < |events| && |fewer| == |events| - 1
    requires forall i | 0 <= i < |fewer| :: fewer[i].body == events[if i < k then i else i + 1].body
    ensures From(fewer, calls, at[..k] + at[k + 1..])
  {
    var a := at[..k] + at[k + 1..];
    forall i | 0 <= i < |a| ensures a[i] == at[if i < k then i else i + 1] {}
  }

  lemma PutFrom(r: Run, b: Body, at: seq<nat>) returns (at': seq<nat>)
    requires From(Seen(r), r.calls, at) && |r.q.events| <= CAPACITY
    ensures From(Seen(Step(r, Put(b))), r.calls + [b], at')
  {
    var r' := Step(r, Put(b));
    if Long(b) {
      FromLonger(Seen(r), r.calls, at, b);
      at' := at;
    } else if |r.q.events| < CAPACITY {
      FromPlus(Seen(r), r.calls, at, b, Event(b, r.q.pending));
      assert Seen(r') == Seen(r) + [Event(b, r.q.pending)];
      at' := at + [|r.calls|];
    } else {
      var k := |r.delivered|;
      var fewer := Seen(r')[..|Seen(r')| - 1];
      FromMinus(Seen(r), r.calls, at, k, fewer);
      at' := at[..k] + at[k + 1..];
      FromPlus(fewer, r.calls, at', b, Event(b, 0));
      assert Seen(r') == fewer + [Event(b, 0)];
      at' := at' + [|r.calls|];
    }
  }

  /** What is delivered is the short lines that were enqueued, in order, some of them missing: the ring
      loses only from its old end and never reorders. */
  lemma {:induction false} InOrder(ops: seq<Op>) returns (at: seq<nat>)
    ensures var r := After(ops); From(Seen(r), r.calls, at)
  {
    at := [];
    if ops != [] {
      var before := ops[..|ops| - 1];
      at := InOrder(before);
      Conserved(before);
      var r := After(before);
      match ops[|ops| - 1]
      case Put(b) => at := PutFrom(r, b, at);
      case Take => if r.q.events != [] { assert Seen(Step(r, Take)) == Seen(r); }
    }
  }

  // ---------------------------------------------------------------- the markers

  /** No two events carry the same total, and none exceeds the current one. */
  ghost predicate Distinct(events: seq<Event>, drops: nat) {
    && (forall i | 0 <= i < |events| :: events[i].drop <= drops)
    && (forall i, j | 0 <= i < j < |events| :: events[i].drop == 0 || events[i].drop != events[j].drop)
  }

  ghost predicate Carried(events: seq<Event>, total: nat) { exists i :: 0 <= i < |events| && events[i].drop == total }

  /** Right after an overflow the head of a full queue carries the total that is also still pending. */
  predicate JustOverflowed(q: Queue) { |q.events| == CAPACITY && q.events[0].drop == q.drops }

  ghost predicate Marked(r: Run) {
    && (r.q.pending == 0 || r.q.pending == r.q.drops)
    && Distinct(Seen(r), r.q.drops)
    && (r.q.pending == 0 && r.q.drops > 0 ==> Carried(Seen(r), r.q.drops))
    && (r.q.pending > 0 && Carried(Seen(r), r.q.drops) ==> JustOverflowed(r.q))
  }

  lemma OverflowMarked(r: Run, b: Body)
    requires Marked(r) && |r.q.events| == CAPACITY && !Long(b)
    ensures Marked(Step(r, Put(b)))
  {
    var r' := Step(r, Put(b));
    var s, s' := Seen(r), Seen(r');
    var k := |r.delivered|;
    assert forall i | 0 <= i < k :: s'[i] == s[i];
    assert s'[k].drop == r'.q.drops == r.q.drops + 1;
    assert forall i | k < i < |s'| - 1 :: s'[i] == s[i + 1];
    assert s'[|s'| - 1].drop == 0;
    assert r'.q.events[0] == s'[k];
  }

  lemma AppendMarked(r: Run, b: Body)
    requires Marked(r) && |r.q.events| < CAPACITY && !Long(b)
    ensures Marked(Step(r, Put(b)))
  {
    var s, e := Seen(r), Event(b, r.q.pending);
    assert Seen(Step(r, Put(b))) == s + [e];
    DistinctPlus(s, e, r.q.drops);
    CarriedPlus(s, e, r.q.drops);
  }

  lemma DistinctPlus(events: seq<Event>, e: Event, drops: nat)
    requires Distinct(events, drops) && e.drop <= drops && (e.drop == 0 || !Carried(events, e.drop))
    ensures Distinct(events + [e], drops)
  {
    forall i | 0 <= i < |events| ensures e.drop == 0 || events[i].drop != e.drop {
      if events[i].drop == e.drop { assert Carried(events, e.drop); }
    }
  }

  lemma CarriedPlus(events: seq<Event>, e: Event, total: nat)
    ensures Carried(events + [e], total) <==> Carried(events, total) || e.drop == total
  {
    if e.drop == total { assert (events + [e])[|events|].drop == total; }
    if Carried(events, total) {
      var i :| 0 <= i < |events| && events[i].drop == total;
      assert (events + [e])[i].drop == total;
    }
  }

  lemma LongMarked(r: Run, b: Body)
    requires Marked(r) && Long(b)
    ensures Marked(Step(r, Put(b)))
  {
    assert Seen(Step(r, Put(b))) == Seen(r);
  }

  lemma TakeMarked(r: Run)
    requires Marked(r) && r.q.events != []
    ensures Marked(Step(r, Take))
  {
    var r' := Step(r, Take);
    assert Seen(r') == Seen(r);
    assert Seen(r)[|r.delivered|] == r.q.events[0];
    if r.q.events[0].drop != 0 && r.q.events[0].drop == r.q.drops {
      assert Carried(Seen(r), r.q.drops);
    }
  }

  lemma {:induction false} AlwaysMarked(ops: seq<Op>)
    ensures Marked(After(ops))
  {
    if ops != [] {
      var before := ops[..|ops| - 1];
      AlwaysMarked(before);
      Conserved(before);
      var r := After(before);
      match ops[|ops| - 1]
      case Put(b) =>
        if Long(b) { LongMarked(r, b); }
        else if |r.q.events| < CAPACITY { AppendMarked(r, b); }
        else { OverflowMarked(r, b); }
      case Take => if r.q.events != [] { TakeMarked(r); }
    }
  }

  /** The drop markers are complete and never repeated: what is pending is nothing or the current total;
      when nothing is pending and something was dropped, exactly one event queued or delivered carries
      the current total; and no total is carried by two events. */
  lemma MarkersComplete(ops: seq<Op>)
    ensures var r := After(ops);
            && (r.q.pending == 0 || r.q.pending == r.q.drops)
            && (r.q.pending == 0 && r.q.drops > 0 ==>
                  exists i :: 0 <= i < |Seen(r)| && Seen(r)[i].drop == r.q.drops
                           && forall j | 0 <= j < |Seen(r)| && Seen(r)[j].drop == r.q.drops :: j == i)
            && (forall i, j | 0 <= i < j < |Seen(r)| && Seen(r)[i].drop > 0 :: Seen(r)[i].drop != Seen(r)[j].drop)
  {
    AlwaysMarked(ops);
    var r := After(ops);
    if r.q.pending == 0 && r.q.drops > 0 {
      var i :| 0 <= i < |Seen(r)| && Seen(r)[i].drop == r.q.drops;
      forall j | 0 <= j < |Seen(r)| && Seen(r)[j].drop == r.q.drops ensures j == i {}
    }
  }

  function MaxDrop(events: seq<Event>): nat {
    if events == [] then 0
    else
      var m := MaxDrop(events[..|events| - 1]);
      if events[|events| - 1].drop > m then events[|events| - 1].drop else m
  }

  lemma {:induction false} MaxDropIs(events: seq<Event>, total: nat)
    requires (forall i | 0 <= i < |events| :: events[i].drop <= total) && (total == 0 || Carried(events, total))
    ensures MaxDrop(events) == total
  {
    if events != [] {
      var shorter := events[..|events| - 1];
      if total == 0 || events[|events| - 1].drop < total {
        if total > 0 {
          var i :| 0 <= i < |events| && events[i].drop == total;
          assert shorter[i].drop == total;
        }
        MaxDropIs(shorter, total);
      } else {
        MaxDropBelow(shorter, total);
      }
    }
  }

  lemma {:induction false} MaxDropBelow(events: seq<Event>, total: nat)
    requires forall i | 0 <= i < |events| :: events[i].drop <= total
    ensures MaxDrop(events) <= total
  {
    if events != [] { MaxDropBelow(events[..|events| - 1], total); }
  }

  /** A consumer that has read everything knows the exact loss from the largest marker it saw if and only if
      nothing is pending. */
  lemma DrainedReadsLoss(ops: seq<Op>)
    requires After(ops).q.events == []
    ensures var r := After(ops);
            (MaxDrop(r.delivered) == r.q.drops <==> r.q.pending == 0)
            && |r.calls| - |r.delivered| == r.q.drops
  {
    AlwaysMarked(ops);
    Conserved(ops);
    var r := After(ops);
    assert Seen(r) == r.delivered;
    if r.q.pending == 0 {
      MaxDropIs(r.delivered, r.q.drops);
    } else {
      MaxDropAttained(r.delivered);
    }
  }

  lemma {:induction false} MaxDropAttained(events: seq<Event>)
    ensures MaxDrop(events) == 0 || Carried(events, MaxDrop(events))
  {
    if events != [] {
      var shorter := events[..|events| - 1];
      MaxDropAttained(shorter);
      if MaxDrop(events) != 0 {
        if events[|events| - 1].drop == MaxDrop(events) {
        } else {
          var i :| 0 <= i < |shorter| && shorter[i].drop == MaxDrop(events);
          assert events[i].drop == MaxDrop(events);
        }
      }
    }
  }

  // ---------------------------------------------------------------- who tells a loss

  lemma AfterPlus(ops: seq<Op>, op: Op)
    ensures After(ops + [op]) == Step(After(ops), op)
  {
    assert (ops + [op])[..|ops|] == ops;
  }

  /** The next short line that finds room tells every loss so far: nothing is pending behind it, and exactly one
      event carries the current total. */
  lemma NextLineTells(ops: seq<Op>, b: Body)
    requires |b.line| < 4096 && |After(ops).q.events| < 256
    ensures var r := After(ops + [Put(b)]);
            && r.q.drops == After(ops).q.drops && r.q.pending == 0
            && (r.q.drops > 0 ==>
                  exists i :: 0 <= i < |Seen(r)| && Seen(r)[i].drop == r.q.drops
                           && forall j | 0 <= j < |Seen(r)| && Seen(r)[j].drop == r.q.drops :: j == i)
  {
    AfterPlus(ops, Put(b));
    MarkersComplete(ops + [Put(b)]);
  }

  /** A line that finds the ring full costs the oldest event, and the new oldest one tells the loss: once it is
      taken nothing is pending. */
  lemma FullRingTells(ops: seq<Op>, b: Body)
    requires |b.line| < 4096 && |After(ops).q.events| == 256
    ensures var q := After(ops + [Put(b)]).q;
            && q.drops == After(ops).q.drops + 1 && |q.events| == 256
            && q.events[0].drop == q.drops && After(ops + [Put(b)] + [Take]).q.pending == 0
  {
    AfterPlus(ops, Put(b));
    AfterPlus(ops + [Put(b)], Take);
  }

  /** A line that is too long is counted, and its loss is pending. */
  lemma LongLinePends(ops: seq<Op>, b: Body)
    requires |b.line| >= 4096
    ensures var r, s := After(ops + [Put(b)]), After(ops);
            && r.q.events == s.q.events && r.q.drops == s.q.drops + 1 && r.q.pending == r.q.drops
  {
    AfterPlus(ops, Put(b));
  }

  function Takes(n: nat): seq<Op> { seq(n, _ => Take) }

  lemma {:induction false} Drains(ops: seq<Op>, n: nat)
    requires n <= |After(ops).q.events|
    ensures var r, s := After(ops), After(ops + Takes(n));
            && s.q.events == r.q.events[n..] && s.delivered == r.delivered + r.q.events[..n]
            && s.q.drops == r.q.drops && (r.q.pending == 0 ==> s.q.pending == 0)
  {
    if n == 0 {
      assert ops + Takes(0) == ops;
    } else {
      Drains(ops, n - 1);
      assert ops + Takes(n) == ops + Takes(n - 1) + [Take];
      AfterPlus(ops + Takes(n - 1), Take);
    }
  }

  /** So a consumer that drains the ring behind such a line reads the exact loss as its largest marker. */
  lemma DrainAfterLine(ops: seq<Op>, b: Body)
    requires |b.line| < 4096 && |After(ops).q.events| < 256
    ensures var r := After(ops + [Put(b)] + Takes(|After(ops).q.events| + 1));
            r.q.events == [] && MaxDrop(r.delivered) == After(ops).q.drops
  {
    NextLineTells(ops, b);
    AfterPlus(ops, Put(b));
    Drains(ops + [Put(b)], |After(ops).q.events| + 1);
    DrainedReadsLoss(ops + [Put(b)] + Takes(|After(ops).q.events| + 1));
  }

  // ---------------------------------------------------------------- what is kept

  /** The lines handed over that were not too long. */
  function Shorts(calls: seq<Body>): seq<Body> {
    if calls == [] then []
    else
      var b := calls[|calls| - 1];
      Shorts(calls[..|calls| - 1]) + if |b.line| < 4096 then [b] else []
  }

  function Bodies(events: seq<Event>): seq<Body> { seq(|events|, i requires 0 <= i < |events| => events[i].body) }

  lemma ShortsPlus(calls: seq<Body>, b: Body)
    ensures Shorts(calls + [b]) == Shorts(calls) + if |b.line| < 4096 then [b] else []
  {
    assert (calls + [b])[..|calls|] == calls;
  }

  /** What is queued is the newest of the short lines: the ring loses only its oldest. */
  ghost predicate Newest(events: seq<Event>, calls: seq<Body>) {
    |events| <= |Shorts(calls)| && Bodies(events) == Shorts(calls)[|Shorts(calls)| - |events|..]
  }

  lemma PutKeepsNewest(r: Run, b: Body)
    requires |r.q.events| <= 256 && Newest(r.q.events, r.calls)
    ensures Newest(Enqueue(r.q, b).events, r.calls + [b])
  {
    ShortsPlus(r.calls, b);
    var t, n := Enqueue(r.q, b).events, |Shorts(r.calls)| - |r.q.events|;
    if |b.line| < 4096 {
      var from := if |r.q.events| == 256 then n + 1 else n;
      assert (Shorts(r.calls) + [b])[from..] == Shorts(r.calls)[from..] + [b];
      assert Bodies(t) == Shorts(r.calls)[from..] + [b];
    } else {
      assert Shorts(r.calls) + [] == Shorts(r.calls);
    }
  }

  lemma {:induction false} KeepsNewest(ops: seq<Op>)
    ensures Newest(After(ops).q.events, After(ops).calls)
  {
    if ops != [] {
      var before := ops[..|ops| - 1];
      KeepsNewest(before);
      Conserved(before);
      var r := After(before);
      match ops[|ops| - 1]
      case Put(b) => PutKeepsNewest(r, b);
      case Take =>
        if r.q.events != [] { assert Bodies(r.q.events[1..]) == Bodies(r.q.events)[1..]; }
    }
  }
}

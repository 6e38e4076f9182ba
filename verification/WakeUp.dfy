/** The wake-up pipe of at-daemon/src/line_events.c: producers and one consumer, interleaved step by step.

    A producer inserts under the lock and writes its byte after unlocking.  The consumer is woken by a
    readable pipe, empties the pipe, takes events up to its budget, looks once more under the lock and
    writes a byte to itself if something is left. */
module WakeUp {
  import opened LineEventModel

  const PIPE_SIZE: nat := 65536
  const READ_SIZE: nat := 64

  datatype Pc = Asleep | Draining | Taking(published: nat) | Checking | Waking

  /** `owed` producers have inserted and not yet written; `wakes` counts the consumer's activations. */
  datatype World = World(q: Queue, pipe: nat, owed: nat, pc: Pc, delivered: seq<Event>, wakes: nat)

  datatype Move = Insert(body: Body) | Notify | Consumer

  const BOOT: World := World(EMPTY, 0, 0, Asleep, [], 0)

  /** A write to a full pipe fails with EAGAIN, which the code ignores. */
  function Written(pipe: nat): nat { if pipe < PIPE_SIZE then pipe + 1 else pipe }

  function ConsumerStep(w: World): World {
    match w.pc
    case Asleep => if w.pipe > 0 then w.(pc := Draining, wakes := w.wakes + 1) else w
    case Draining =>
      if w.pipe == 0 then w.(pc := Taking(0)) else w.(pipe := if w.pipe > READ_SIZE then w.pipe - READ_SIZE else 0)
    case Taking(n) =>
      if n < DRAIN_BUDGET && w.q.events != [] then
        w.(q := Dequeue(w.q), pc := Taking(n + 1), delivered := w.delivered + [w.q.events[0]])
      else w.(pc := Checking)
    case Checking => if w.q.events != [] then w.(pc := Waking) else w.(pc := Asleep)
    case Waking => w.(pc := Asleep, pipe := Written(w.pipe))
  }

  function Step(w: World, m: Move): World {
    match m
    case Insert(b) => w.(q := Enqueue(w.q, b), owed := w.owed + if Long(b) then 0 else 1)
    case Notify => if w.owed > 0 then w.(owed := w.owed - 1, pipe := Written(w.pipe)) else w
    case Consumer => ConsumerStep(w)
  }

  function After(moves: seq<Move>): World {
    if moves == [] then BOOT else Step(After(moves[..|moves| - 1]), moves[|moves| - 1])
  }

  // ---------------------------------------------------------------- no lost wake-up

  /** Someone will still look at the queue. */
  predicate Attended(w: World) { w.pipe > 0 || w.owed > 0 || w.pc != Asleep }

  /** In every interleaving of any number of producers with the consumer, a queue that is not empty has a byte
      in the pipe, a producer about to write one, or a consumer that has not gone back to sleep. */
  lemma {:induction false} NoLostWakeUp(moves: seq<Move>)
    ensures var w := After(moves); w.q.events != [] ==> Attended(w)
  {
    if moves != [] {
      NoLostWakeUp(moves[..|moves| - 1]);
    }
  }

  /** The short lines handed over so far, and the bytes their producers have written. */
  function Inserted(moves: seq<Move>): nat {
    if moves == [] then 0
    else
      var m := moves[|moves| - 1];
      Inserted(moves[..|moves| - 1]) + if m.Insert? && |m.body.line| < 4096 then 1 else 0
  }

  function Notified(moves: seq<Move>): nat {
    if moves == [] then 0
    else
      var before := moves[..|moves| - 1];
      Notified(before) + if moves[|moves| - 1] == Notify && After(before).owed > 0 then 1 else 0
  }

  /** Each short line owes one byte, and a line that is too long owes none. */
  lemma {:induction false} OneByteEach(moves: seq<Move>)
    ensures Inserted(moves) == Notified(moves) + After(moves).owed
  {
    if moves != [] { OneByteEach(moves[..|moves| - 1]); }
  }

  /** The bytes that the consumer wrote to itself. */
  function Rearmed(moves: seq<Move>): nat {
    if moves == [] then 0
    else
      var before := moves[..|moves| - 1];
      Rearmed(before) + if moves[|moves| - 1] == Consumer && After(before).pc == Waking then 1 else 0
  }

  /** A consumer wakes only for a byte, once for it at most, and bytes come only from the two. */
  lemma {:induction false} WokenByBytes(moves: seq<Move>)
    ensures var w := After(moves);
            w.wakes + w.pipe <= Notified(moves) + Rearmed(moves) + if w.pc == Draining && w.pipe > 0 then 1 else 0
    ensures After(moves).wakes <= Notified(moves) + Rearmed(moves)
  {
    if moves != [] { WokenByBytes(moves[..|moves| - 1]); }
  }

  // ---------------------------------------------------------------- draining

  function Iterate(w: World, n: nat): World
    decreases n
  {
    if n == 0 then w else Iterate(ConsumerStep(w), n - 1)
  }

  lemma {:induction false} IterateAdds(w: World, m: nat, n: nat)
    ensures Iterate(w, m + n) == Iterate(Iterate(w, m), n)
    decreases m
  {
    if m > 0 { IterateAdds(ConsumerStep(w), m - 1, n); }
  }

  lemma {:induction false} DrainEnds(w: World) returns (n: nat)
    requires w.pc == Draining
    ensures Iterate(w, n) == w.(pipe := 0, pc := Taking(0))
    decreases w.pipe
  {
    if w.pipe == 0 {
      n := 1;
      assert Iterate(w, 1) == Iterate(ConsumerStep(w), 0);
    } else {
      n := DrainEnds(ConsumerStep(w));
      n := n + 1;
    }
  }

  /** The consumer is looking once more, `n` events having been taken from `w`. */
  ghost predicate Took(w: World, v: World, n: nat) {
    && n <= |w.q.events|
    && v.pc == Checking && v.pipe == w.pipe && v.owed == w.owed && v.wakes == w.wakes
    && v.q.events == w.q.events[n..] && v.delivered == w.delivered + w.q.events[..n]
  }

  lemma {:induction false} TakeEnds(w: World) returns (n: nat)
    requires w.pc.Taking? && w.pc.published <= DRAIN_BUDGET
    ensures var left := DRAIN_BUDGET - w.pc.published;
            Took(w, Iterate(w, n), if |w.q.events| < left then |w.q.events| else left)
    decreases DRAIN_BUDGET - w.pc.published
  {
    if w.pc.published < DRAIN_BUDGET && w.q.events != [] {
      var v := ConsumerStep(w);
      n := TakeEnds(v);
      var left := DRAIN_BUDGET - v.pc.published;
      var k := if |v.q.events| < left then |v.q.events| else left;
      assert w.q.events[..k + 1] == [w.q.events[0]] + v.q.events[..k];
      assert w.delivered + [w.q.events[0]] + v.q.events[..k] == w.delivered + ([w.q.events[0]] + v.q.events[..k]);
      n := n + 1;
    } else {
      n := 1;
      assert Iterate(w, 1) == Iterate(ConsumerStep(w), 0);
      assert w.delivered + w.q.events[..0] == w.delivered;
    }
  }

  /** `v` is `w` after one whole run of the consumer. */
  ghost predicate OneRun(w: World, v: World) {
    var n := if |w.q.events| < DRAIN_BUDGET then |w.q.events| else DRAIN_BUDGET;
    && v.pc == Asleep && v.owed == w.owed && v.wakes == w.wakes + 1
    && v.q.events == w.q.events[n..] && v.delivered == w.delivered + w.q.events[..n]
    && v.pipe == if v.q.events == [] then 0 else 1
  }

  /** With the producers quiet, a consumer that is woken publishes up to 64 events and, if any are left, leaves
      exactly one byte behind to be woken again. */
  lemma RunEnds(w: World) returns (n: nat)
    requires w.pc == Asleep && w.pipe > 0
    ensures OneRun(w, Iterate(w, n))
  {
    var w1 := ConsumerStep(w);
    var a := DrainEnds(w1);
    var w2 := Iterate(w1, a);
    var b := TakeEnds(w2);
    var w3 := Iterate(w2, b);
    var last := if w3.q.events != [] then 2 else 1;
    IterateAdds(w1, a, b);
    IterateAdds(w1, a + b, last);
    assert Iterate(w3, last) == if last == 1 then ConsumerStep(w3) else ConsumerStep(ConsumerStep(w3)) by {
      assert Iterate(w3, 1) == Iterate(ConsumerStep(w3), 0);
      assert Iterate(w3, 2) == Iterate(ConsumerStep(w3), 1);
      assert Iterate(ConsumerStep(w3), 1) == Iterate(ConsumerStep(ConsumerStep(w3)), 0);
    }
    n := a + b + last + 1;
  }

  function Ceil64(n: nat): nat { (n + 63) / 64 }

  /** With the producers quiet, exactly ceil(count / 64) runs of the consumer empty the queue, everything is
      delivered in order, and no byte is left behind. */
  lemma {:induction false} QuietDrains(w: World) returns (n: nat)
    requires w.pc == Asleep && w.pipe > 0 && w.q.events != []
    ensures var v := Iterate(w, n);
            && v.q.events == [] && v.pipe == 0 && v.pc == Asleep
            && v.delivered == w.delivered + w.q.events
            && v.wakes == w.wakes + Ceil64(|w.q.events|)
    decreases |w.q.events|
  {
    n := RunEnds(w);
    var v := Iterate(w, n);
    if v.q.events != [] {
      var m := QuietDrains(v);
      IterateAdds(w, n, m);
      assert w.q.events == w.q.events[..DRAIN_BUDGET] + w.q.events[DRAIN_BUDGET..];
      var u := Iterate(v, m);
      assert u.delivered == w.delivered + w.q.events[..DRAIN_BUDGET] + w.q.events[DRAIN_BUDGET..];
      assert u.delivered == w.delivered + w.q.events;
      assert Ceil64(|w.q.events|) == 1 + Ceil64(|w.q.events| - DRAIN_BUDGET);
      n := n + m;
    } else {
      assert w.q.events[..|w.q.events|] == w.q.events;
    }
  }
}

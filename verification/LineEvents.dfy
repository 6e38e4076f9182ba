/** The ring of at-daemon/src/line_events.c: an array used in place, with a wake-up pipe beside it. */
module LineEventCode {
  import opened LineEventModel

  /** The index of the `i`-th element of a ring that starts at `head`. */
  function Slot(head: nat, i: nat): nat { (head + i) % CAPACITY }

  function Ring(entries: seq<Event>, head: nat, count: nat): (s: seq<Event>)
    requires |entries| == CAPACITY
    ensures |s| == count
  {
    seq(count, i requires 0 <= i < count => entries[Slot(head, i)])
  }

  /** Moving the head on drops the first element. */
  lemma RingDrops(entries: seq<Event>, head: nat, count: nat)
    requires |entries| == CAPACITY && count > 0
    ensures Ring(entries, (head + 1) % CAPACITY, count - 1) == Ring(entries, head, count)[1..]
  {
    var a, b := Ring(entries, (head + 1) % CAPACITY, count - 1), Ring(entries, head, count)[1..];
    forall i: nat | i < count - 1 ensures a[i] == b[i] {
      assert Slot((head + 1) % CAPACITY, i) == Slot(head, i + 1);
    }
  }

  class LineEventQueue {
    const entries: array<Event>
    var head: nat
    var count: nat
    var dropCount: nat
    var pendingDropCount: nat
    var pipe: nat    // bytes waiting in the notify pipe

    ghost predicate Valid()
      reads this`head, this`count
    {
      entries.Length == CAPACITY && head < CAPACITY && count <= CAPACITY
    }

    /** The ring read from its head, as the bounded sequence of the model. */
    ghost function Contents(): (s: seq<Event>)
      reads this`head, this`count, entries
      requires Valid()
      ensures |s| == count
    {
      Ring(entries[..], head, count)
    }

    ghost function View(): Queue
      reads this`head, this`count, this`dropCount, this`pendingDropCount, entries
      requires Valid()
    {
      Queue(Contents(), dropCount, pendingDropCount)
    }

    constructor ()
      ensures Valid() && fresh(entries) && View() == EMPTY && pipe == 0
    {
      entries := new Event[CAPACITY];
      head, count, dropCount, pendingDropCount, pipe := 0, 0, 0, 0, 0;
    }

    /** Drop the oldest event of a full ring and mark the one that becomes the head. */
    method Overflow()
      requires Valid() && count == CAPACITY
      modifies this`head, this`count, this`dropCount, this`pendingDropCount, entries
      ensures Valid() && count == CAPACITY - 1
      ensures dropCount == pendingDropCount == old(dropCount) + 1
      ensures var kept := old(Contents())[1..]; Contents() == kept[0 := Event(kept[0].body, dropCount)]
    {
      RingDrops(entries[..], head, count);
      head := (head + 1) % CAPACITY;
      count := count - 1;
      dropCount := dropCount + 1;
      pendingDropCount := dropCount;
      assert forall i: nat | 0 < i < count :: Slot(head, i) != head;
      entries[head] := Event(entries[head].body, pendingDropCount);
    }

    /** Write an event behind the last one. */
    method Append(e: Event)
      requires Valid() && count < CAPACITY
      modifies this`count, entries
      ensures Valid() && Contents() == old(Contents()) + [e]
    {
      ghost var before := Contents();
      var slot := Slot(head, count);
      assert forall i: nat | i < count :: Slot(head, i) != slot;
      entries[slot] := e;
      assert forall i: nat | i < count :: entries[Slot(head, i)] == before[i];
      count := count + 1;
    }

    method EnqueueLine(b: Body)
      requires Valid()
      modifies this, entries
      ensures Valid() && View() == Enqueue(old(View()), b)
      ensures pipe == old(pipe) + if Long(b) then 0 else 1
    {
      if |b.line| >= MAX_LINE {
        dropCount := dropCount + 1;
        pendingDropCount := dropCount;
        assert Contents() == old(Contents());
        return;
      }
      var overflowed := count == CAPACITY;
      if overflowed { Overflow(); }
      var drop := if overflowed then 0 else pendingDropCount;
      Append(Event(b, drop));
      if !overflowed && drop != 0 { pendingDropCount := 0; }
      NotifyConsumer();
    }

    method NotifyConsumer()
      modifies this`pipe
      ensures pipe == old(pipe) + 1
    {
      pipe := pipe + 1;
    }

    method DequeueLine() returns (found: bool, event: Event)
      requires Valid()
      modifies this`head, this`count, this`pendingDropCount
      ensures Valid()
      ensures found == (old(count) > 0)
      ensures found ==> event == old(Contents())[0] && View() == Dequeue(old(View()))
      ensures !found ==> View() == old(View())
    {
      event := entries[head];
      found := false;
      if count > 0 {
        RingDrops(entries[..], head, count);
        head := (head + 1) % CAPACITY;
        count := count - 1;
        if event.drop != 0 && event.drop == dropCount { pendingDropCount := 0; }
        found := true;
      }
    }

    /** One run of the consumer: empty the pipe, publish up to the budget, and wake itself again if anything
        is left.  `out` is what the publisher was handed. */
    method Consume(budget: nat) returns (out: seq<Event>)
      requires Valid()
      modifies this
      ensures Valid() && |out| == if old(count) < budget then old(count) else budget
      ensures out == old(Contents())[..|out|]
      ensures View() == Taken(old(View()), |out|)
      ensures pipe == if count > 0 then 1 else 0
    {
      pipe := 0;
      out := [];
      ghost var q0 := View();
      while |out| < budget
        invariant Valid() && pipe == 0 && |out| <= budget
        invariant |out| <= |q0.events| && out == q0.events[..|out|]
        invariant View() == Taken(q0, |out|)
      {
        var found, event := DequeueLine();
        if !found { break; }
        TakenStep(q0, |out|);
        out := out + [event];
      }
      if count > 0 { NotifyConsumer(); }
    }
  }

  lemma TakenStep(q: Queue, n: nat)
    requires n < |q.events|
    ensures Taken(q, n).events != [] && Taken(q, n).events[0] == q.events[n]
    ensures Taken(q, n + 1) == Dequeue(Taken(q, n))
    ensures q.events[..n + 1] == q.events[..n] + [q.events[n]]
  {
  }

  /** The queue after `n` events were taken from its head. */
  function Taken(q: Queue, n: nat): (r: Queue)
    requires n <= |q.events|
    ensures r.events == q.events[n..] && r.drops == q.drops
    decreases n
  {
    if n == 0 then q else Dequeue(Taken(q, n - 1))
  }
}

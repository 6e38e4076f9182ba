/**
 * Which command a line belongs to (at-daemon/src/at_handler.c): one sender at a time starts a command,
 * writes it and waits; the reader thread takes one line at a time and touches the shared flags in three
 * separate critical sections. Each step below is one critical section (or one store outside a lock), and
 * a run is any sequence of steps: a step that the threads cannot take in a state leaves it unchanged, so
 * every interleaving is some list of steps.
 */
module Correlation {
  datatype Kind = Idle | Response | Ambiguous | Terminal
  // What one line puts in the event queue; `number` is the line's place in the reader's input.
  datatype Event = Event(number: int, text: string, id: nat, kind: Kind)
  datatype Sender = Resting | Writing | Waiting
  // Between lines; holding a line taken for command `held` (0 when none was waiting), with `overtaken`
  // recording whether a command started since; or with the verdict on its end flags.
  datatype Reader =
    | Between
    | Holding(text: string, held: nat, overtaken: bool)
    | Judged(text: string, held: nat, terminal: bool)
  // A completed command, the command for which the completing line was taken, and whether another
  // command started while the reader held that line.
  datatype Done = Done(command: nat, held: nat, overtaken: bool)

  datatype Shared = Shared(next: nat, active: nat, waiting: bool)
  datatype Port = Port(shared: Shared, sender: Sender, reader: Reader, taken: nat,
                       events: seq<Event>, done: seq<Done>)

  datatype Step =
    | Start                    // at_handler.c:150-158
    | WriteFails               // at_handler.c:168-206
    | WriteSucceeds
    | WaitEnds(timedOut: bool) // at_handler.c:211-236
    | Take(line: string)       // at_handler.c:353-367
    | Judge(matched: bool)     // at_handler.c:369-387
    | Emit                     // at_handler.c:389-401
    | Prompt(matched: bool)    // at_handler.c:410-427

  const CLOSED := Port(Shared(0, 0, false), Resting, Between, 0, [], [])

  predicate IsEcho(line: string) { "AT" <= line }

  predicate IsRing(line: string) { line == "RING" || "+CLIP:" <= line }

  function KindOf(text: string, held: nat, terminal: bool): Kind {
    if terminal then Terminal
    else if held == 0 then Idle
    else if IsRing(text) then Ambiguous
    else Response
  }

  function Begin(s: Shared): Shared { Shared(s.next + 1, s.next + 1, true) }

  function Quit(s: Shared): Shared { Shared(s.next, s.active, false) }

  function Leave(s: Shared, timedOut: bool): Shared { Shared(s.next, 0, s.waiting && !timedOut) }

  function Overtake(r: Reader): Reader {
    if r.Holding? then Holding(r.text, r.held, true) else r
  }

  function SendStep(p: Port, e: Step): Port
    requires e.Start? || e.WriteFails? || e.WriteSucceeds? || e.WaitEnds?
  {
    match e
    case Start =>
      if p.sender != Resting then p
      else Port(Begin(p.shared), Writing, Overtake(p.reader), p.taken, p.events, p.done)
    case WriteFails =>
      if p.sender != Writing then p
      else Port(Quit(p.shared), Resting, p.reader, p.taken, p.events, p.done)
    case WriteSucceeds =>
      if p.sender != Writing then p
      else Port(p.shared, Waiting, p.reader, p.taken, p.events, p.done)
    case WaitEnds(timedOut) =>
      if p.sender != Waiting || (p.shared.waiting && !timedOut) then p
      else Port(Leave(p.shared, timedOut), Resting, p.reader, p.taken, p.events, p.done)
  }

  function ReadStep(p: Port, e: Step): Port
    requires e.Take? || e.Judge? || e.Emit? || e.Prompt?
  {
    match e
    case Take(line) =>
      if p.reader != Between || line == "" || IsEcho(line) then p
      else
        var held := if p.shared.waiting then p.shared.active else 0;
        Port(p.shared, p.sender, Holding(line, held, false), p.taken + 1, p.events, p.done)
    case Judge(matched) =>
      if !p.reader.Holding? then p
      else
        var terminal := p.reader.held > 0 && matched;
        var verdict := Judged(p.reader.text, p.reader.held, terminal);
        if terminal && p.shared.waiting then
          Port(Quit(p.shared), p.sender, verdict, p.taken, p.events,
               p.done + [Done(p.shared.active, p.reader.held, p.reader.overtaken)])
        else Port(p.shared, p.sender, verdict, p.taken, p.events, p.done)
    case Emit =>
      if !p.reader.Judged? then p
      else
        var kind := KindOf(p.reader.text, p.reader.held, p.reader.terminal);
        Port(p.shared, p.sender, Between, p.taken,
             p.events + [Event(p.taken - 1, p.reader.text, p.reader.held, kind)], p.done)
    case Prompt(matched) =>
      if p.reader != Between || !p.shared.waiting || !matched then p
      else Port(Quit(p.shared), p.sender, Between, p.taken, p.events,
                p.done + [Done(p.shared.active, p.shared.active, false)])
  }

  function Do(p: Port, e: Step): Port {
    if e.Start? || e.WriteFails? || e.WriteSucceeds? || e.WaitEnds? then SendStep(p, e) else ReadStep(p, e)
  }

  function Run(p: Port, steps: seq<Step>): Port {
    if steps == [] then p else Do(Run(p, steps[..|steps| - 1]), steps[|steps| - 1])
  }

  // ---- what the event stream promises ----

  // The events of one command stand next to each other.
  ghost predicate Grouped(log: seq<Event>) {
    forall i, j, k :: 0 <= i < j < k < |log| && log[i].id == log[k].id != 0 ==> log[j].id == log[i].id
  }

  // A terminal event is the last of its command.
  ghost predicate TerminalLast(log: seq<Event>) {
    forall i, j :: 0 <= i < j < |log| && log[i].kind == Terminal ==> log[j].id != log[i].id
  }

  // Command ids never go back.
  ghost predicate Ascending(log: seq<Event>) {
    forall i, j :: 0 <= i < j < |log| && log[j].id != 0 ==> log[i].id <= log[j].id
  }

  // The k-th event is the k-th line the reader took.
  ghost predicate InLineOrder(log: seq<Event>) {
    forall i :: 0 <= i < |log| ==> log[i].number == i
  }

  ghost predicate RightKind(e: Event) {
    && (e.id == 0 <==> e.kind == Idle)
    && (e.kind == Ambiguous ==> IsRing(e.text))
    && (e.kind == Response ==> !IsRing(e.text))
  }

  ghost predicate RightKinds(log: seq<Event>) {
    forall i :: 0 <= i < |log| ==> RightKind(log[i])
  }

  ghost predicate Neat(log: seq<Event>) {
    Grouped(log) && TerminalLast(log) && Ascending(log) && InLineOrder(log) && RightKinds(log)
  }

  // ---- the invariant behind it ----

  ghost predicate Unused(log: seq<Event>, id: nat) {
    forall i :: 0 <= i < |log| ==> log[i].id < id
  }

  // One more event of command `id` may follow: no later command has an event, and the command's
  // own events, if any, reach the end of the log without a terminal one.
  ghost predicate Open(log: seq<Event>, id: nat) {
    forall i :: 0 <= i < |log| ==>
      && log[i].id <= id
      && (log[i].id == id ==> log[i].kind != Terminal && log[|log| - 1].id == id)
  }

  ghost predicate SharedInv(p: Port) {
    && (p.shared.waiting ==> p.sender != Resting)
    && (p.sender != Resting ==> p.shared.active == p.shared.next >= 1)
    && |p.events| + (if p.reader == Between then 0 else 1) == p.taken
  }

  ghost predicate ReaderInv(p: Port) {
    match p.reader
    case Between => true
    case Holding(_, held, overtaken) =>
      && held <= p.shared.next
      && (held > 0 ==> (overtaken <==> held != p.shared.next))
    case Judged(_, held, terminal) =>
      && held <= p.shared.next
      && (terminal ==> held > 0 && (p.shared.waiting ==> held != p.shared.next))
  }

  // The id under which the reader will report its line; 0 when it holds none or none was waiting.
  function Held(r: Reader): nat {
    if r == Between then 0 else r.held
  }

  ghost predicate LogInv(p: Port) {
    && Neat(p.events)
    && (Held(p.reader) > 0 ==> Open(p.events, Held(p.reader)))
    && (p.shared.waiting && p.reader == Between ==> Open(p.events, p.shared.next))
    && (p.shared.waiting && p.reader != Between && Held(p.reader) != p.shared.next ==>
          Unused(p.events, p.shared.next))
    && Unused(p.events, p.shared.next + 1)
  }

  ghost predicate DoneRight(d: Done) {
    d.command >= 1 && d.held <= d.command && (d.held == d.command <==> !d.overtaken)
  }

  ghost predicate DoneInv(p: Port) {
    && (forall i :: 0 <= i < |p.done| ==> DoneRight(p.done[i]) && p.done[i].command <= p.shared.next)
    && (forall i, j :: 0 <= i < j < |p.done| ==> p.done[i].command < p.done[j].command)
    && (p.shared.waiting ==> forall i :: 0 <= i < |p.done| ==> p.done[i].command < p.shared.next)
    && (p.sender != Resting && !p.shared.waiting ==>
          |p.done| > 0 && p.done[|p.done| - 1].command == p.shared.active)
  }

  ghost predicate Inv(p: Port) {
    SharedInv(p) && ReaderInv(p) && LogInv(p) && DoneInv(p)
  }

  lemma AppendKeepsGroups(log: seq<Event>, e: Event)
    requires Grouped(log) && TerminalLast(log) && Ascending(log)
    requires e.id > 0 ==> Open(log, e.id)
    requires forall i :: 0 <= i < |log| && log[i].kind == Terminal ==> log[i].id > 0
    ensures Grouped(log + [e]) && TerminalLast(log + [e]) && Ascending(log + [e])
  {
    var longer := log + [e];
    forall i, j, k | 0 <= i < j < k < |longer| && longer[i].id == longer[k].id != 0
      ensures longer[j].id == longer[i].id
    {
      if k == |log| {
        var last := |log| - 1;
        assert log[i].id == e.id && log[last].id == e.id;
        if j < last { assert log[j].id == log[i].id; }
      }
    }
    forall i, j | 0 <= i < j < |longer| && longer[i].kind == Terminal
      ensures longer[j].id != longer[i].id
    {
    }
  }

  lemma AppendKeepsNeat(log: seq<Event>, e: Event)
    requires Neat(log) && RightKind(e) && e.number == |log|
    requires e.id > 0 ==> Open(log, e.id)
    ensures Neat(log + [e])
  {
    forall i | 0 <= i < |log| && log[i].kind == Terminal ensures log[i].id > 0 {
      assert RightKind(log[i]);
    }
    AppendKeepsGroups(log, e);
  }

  lemma SendKeeps(p: Port, e: Step)
    requires Inv(p)
    requires e.Start? || e.WriteFails? || e.WriteSucceeds? || e.WaitEnds?
    ensures Inv(Do(p, e))
  {
  }

  // A completion by line or by prompt: `held` is the command its line was taken for.
  lemma CompletionKeeps(p: Port, d: Done)
    requires DoneInv(p) && p.shared.waiting && p.sender != Resting
    requires p.shared.active == p.shared.next == d.command && DoneRight(d)
    ensures DoneInv(Port(Quit(p.shared), p.sender, p.reader, p.taken, p.events, p.done + [d]))
  {
  }

  lemma TakeKeeps(p: Port, line: string)
    requires Inv(p)
    ensures Inv(Do(p, Take(line)))
  {
  }

  lemma JudgeKeeps(p: Port, matched: bool)
    requires Inv(p)
    ensures Inv(Do(p, Judge(matched)))
  {
    if p.reader.Holding? && p.reader.held > 0 && matched && p.shared.waiting {
      CompletionKeeps(p, Done(p.shared.active, p.reader.held, p.reader.overtaken));
    }
  }

  lemma EmitKeepsOpen(log: seq<Event>, e: Event, id: nat)
    requires e.id <= id && id > 0
    requires e.id == id ==> Open(log, id) && e.kind != Terminal
    requires e.id < id ==> Unused(log, id)
    ensures Open(log + [e], id)
  {
  }

  lemma EmitKeeps(p: Port)
    requires Inv(p)
    ensures Inv(Do(p, Emit))
  {
    if p.reader.Judged? {
      var kind := KindOf(p.reader.text, p.reader.held, p.reader.terminal);
      var event := Event(p.taken - 1, p.reader.text, p.reader.held, kind);
      AppendKeepsNeat(p.events, event);
      if p.shared.waiting { EmitKeepsOpen(p.events, event, p.shared.next); }
    }
  }

  lemma PromptKeeps(p: Port, matched: bool)
    requires Inv(p)
    ensures Inv(Do(p, Prompt(matched)))
  {
    if p.reader == Between && p.shared.waiting && matched {
      CompletionKeeps(p, Done(p.shared.active, p.shared.active, false));
    }
  }

  lemma StepKeeps(p: Port, e: Step)
    requires Inv(p)
    ensures Inv(Do(p, e))
  {
    match e
    case Take(line) => TakeKeeps(p, line);
    case Judge(matched) => JudgeKeeps(p, matched);
    case Emit => EmitKeeps(p);
    case Prompt(matched) => PromptKeeps(p, matched);
    case _ => SendKeeps(p, e);
  }

  // Every step, of either thread and in any order, keeps the invariant; so it holds after every run.
  lemma {:induction false} RunKeeps(steps: seq<Step>)
    ensures Inv(Run(CLOSED, steps))
  {
    if steps != [] {
      RunKeeps(steps[..|steps| - 1]);
      StepKeeps(Run(CLOSED, steps[..|steps| - 1]), steps[|steps| - 1]);
    }
  }

  // ---- the promises ----

  // Under every interleaving of reader, sender and timeout: one command's events are contiguous and in the
  // reader's order, at most one of them is terminal and it is the last, ids never reappear, and no
  // line the reader took is missing.
  lemma EventStream(steps: seq<Step>)
    ensures var p := Run(CLOSED, steps);
      && Grouped(p.events) && TerminalLast(p.events) && Ascending(p.events)
      && InLineOrder(p.events) && RightKinds(p.events)
      && p.taken == |p.events| + (if p.reader == Between then 0 else 1)
  {
    RunKeeps(steps);
  }

  // No command is completed twice, and commands are completed in the order they were started.
  lemma CompletedOnce(steps: seq<Step>, i: nat, j: nat)
    requires i < j < |Run(CLOSED, steps).done|
    ensures Run(CLOSED, steps).done[i].command < Run(CLOSED, steps).done[j].command
  {
    RunKeeps(steps);
  }

  // A sender that wakes without a timeout finds its own command completed, and as the latest completion.
  lemma WakesCompleted(steps: seq<Step>)
    requires Run(CLOSED, steps).sender == Waiting && !Run(CLOSED, steps).shared.waiting
    ensures var p := Run(CLOSED, steps);
      |p.done| > 0 && p.done[|p.done| - 1].command == p.shared.active
  {
    RunKeeps(steps);
  }

  // Exactly when a completion is the right one: the completing line was taken for the completed command
  // if and only if no command started while the reader held that line.
  lemma CompletionIsOwn(steps: seq<Step>, i: nat)
    requires i < |Run(CLOSED, steps).done|
    ensures var d := Run(CLOSED, steps).done[i];
      d.held <= d.command && (d.held == d.command <==> !d.overtaken)
  {
    RunKeeps(steps);
  }

  function LateAnswer(): seq<Step> {
    [Start, WriteSucceeds, Take("OK"), WaitEnds(true)]
  }

  // Command 1 times out while the reader holds its "OK"; the line is then judged under command 2.
  function TooLate(): seq<Step> {
    LateAnswer() + [Start, WriteSucceeds, Judge(true), Emit]
  }

  // A late terminal line of command 1 completes command 2, which has had no answer at all.
  lemma CompletionCanBeForeign()
    ensures var p := Run(CLOSED, TooLate());
      && p.done == [Done(2, 1, true)]
      && p.events == [Event(0, "OK", 1, Terminal)]
      && p.sender == Waiting && !p.shared.waiting
  {
    FourMore(CLOSED, [], Start, WriteSucceeds, Take("OK"), WaitEnds(true));
    assert [] + LateAnswer() == LateAnswer();
    var late := Port(Shared(1, 0, false), Resting, Holding("OK", 1, false), 1, [], []);
    FirstHalf();
    FourMore(CLOSED, LateAnswer(), Start, WriteSucceeds, Judge(true), Emit);
    SecondHalf(late);
  }

  lemma FirstHalf()
    ensures Do(Do(Do(Do(CLOSED, Start), WriteSucceeds), Take("OK")), WaitEnds(true))
         == Port(Shared(1, 0, false), Resting, Holding("OK", 1, false), 1, [], [])
  {
    assert "OK"[0] == 'O' && "AT"[0] == 'A';
    var waiting := Do(Do(CLOSED, Start), WriteSucceeds);
    assert Do(waiting, Take("OK")) == Port(Shared(1, 1, true), Waiting, Holding("OK", 1, false), 1, [], []);
  }

  lemma SecondHalf(late: Port)
    requires late == Port(Shared(1, 0, false), Resting, Holding("OK", 1, false), 1, [], [])
    ensures Do(Do(Do(Do(late, Start), WriteSucceeds), Judge(true)), Emit)
         == Port(Shared(2, 2, false), Waiting, Between, 1, [Event(0, "OK", 1, Terminal)], [Done(2, 1, true)])
  {
  }

  lemma OneMore(p: Port, steps: seq<Step>, e: Step)
    ensures Run(p, steps + [e]) == Do(Run(p, steps), e)
  {
    assert (steps + [e])[..|steps|] == steps;
  }

  lemma TwoMore(p: Port, steps: seq<Step>, a: Step, b: Step)
    ensures Run(p, steps + [a, b]) == Do(Do(Run(p, steps), a), b)
  {
    OneMore(p, steps, a);
    OneMore(p, steps + [a], b);
    assert steps + [a] + [b] == steps + [a, b];
  }

  lemma FourMore(p: Port, steps: seq<Step>, a: Step, b: Step, c: Step, d: Step)
    ensures Run(p, steps + [a, b, c, d]) == Do(Do(Do(Do(Run(p, steps), a), b), c), d)
  {
    TwoMore(p, steps, a, b);
    TwoMore(p, steps + [a, b], c, d);
    assert steps + [a, b] + [c, d] == steps + [a, b, c, d];
  }

  // ---- a condition on the sender alone ----

  // No wait times out and no write fails.
  predicate Patient(steps: seq<Step>) {
    forall i :: 0 <= i < |steps| ==> steps[i] != WaitEnds(true) && steps[i] != WriteFails
  }

  ghost predicate Calm(p: Port) {
    && (p.reader.Holding? && p.reader.held > 0 ==> p.shared.waiting && !p.reader.overtaken)
    && (p.shared.waiting ==> p.sender != Resting)
    && (forall i :: 0 <= i < |p.done| ==> !p.done[i].overtaken)
  }

  // While no wait times out and no write fails, every completion is the command's own.
  lemma {:induction false} PatientSendersAreRight(steps: seq<Step>)
    requires Patient(steps)
    ensures Calm(Run(CLOSED, steps))
    ensures var done := Run(CLOSED, steps).done;
      forall i :: 0 <= i < |done| ==> done[i].held == done[i].command
  {
    RunKeeps(steps);
    if steps != [] {
      PatientSendersAreRight(steps[..|steps| - 1]);
      RunKeeps(steps[..|steps| - 1]);
    }
    var done := Run(CLOSED, steps).done;
    forall i | 0 <= i < |done| ensures done[i].held == done[i].command {
      CompletionIsOwn(steps, i);
    }
  }

  // ---- each line ----

  predicate Shown(line: string) { line != "" && !(|line| >= 2 && line[0] == 'A' && line[1] == 'T') }

  lemma EchoIs(line: string)
    ensures Shown(line) <==> line != "" && !IsEcho(line)
  {
    if |line| >= 2 { assert line[..2] == [line[0], line[1]] && "AT" == ['A', 'T']; }
  }

  // Steps of the sender alone.
  predicate Senders(steps: seq<Step>) {
    forall i :: 0 <= i < |steps| ==>
      steps[i].Start? || steps[i].WriteFails? || steps[i].WriteSucceeds? || steps[i].WaitEnds?
  }

  // They change nothing that the reader holds, but for the mark that a command has started.
  lemma {:induction false} SendersLeaveReader(p: Port, steps: seq<Step>)
    requires Senders(steps)
    ensures var q := Run(p, steps);
      && q.taken == p.taken && q.events == p.events
      && match p.reader
         case Between => q.reader == Between
         case Holding(text, held, _) => q.reader.Holding? && q.reader.text == text && q.reader.held == held
         case Judged(_, _, _) => q.reader == p.reader
  {
    if steps != [] { SendersLeaveReader(p, steps[..|steps| - 1]); }
  }

  // Whatever the sender does meanwhile, a line that is offered to a free reader is reported once, with the
  // command that waited when it was taken and nothing else.
  lemma LineReported(p: Port, line: string, a: seq<Step>, matched: bool, b: seq<Step>)
    requires p.reader == Between && Shown(line) && Senders(a) && Senders(b)
    ensures var q := Do(Run(Do(Run(Do(p, Take(line)), a), Judge(matched)), b), Emit);
      var id := if p.shared.waiting then p.shared.active else 0;
      && q.reader == Between && q.taken == p.taken + 1
      && q.events == p.events + [Event(p.taken, line, id,
           if id == 0 then Idle else if matched then Terminal
           else if line == "RING" || (|line| >= 6 && line[..6] == "+CLIP:") then Ambiguous else Response)]
  {
    EchoIs(line);
    RingIs(line);
    SendersLeaveReader(Do(p, Take(line)), a);
    SendersLeaveReader(Do(Run(Do(p, Take(line)), a), Judge(matched)), b);
  }

  lemma RingIs(line: string)
    ensures IsRing(line) <==> line == "RING" || (|line| >= 6 && line[..6] == "+CLIP:")
  {
    if "+CLIP:" <= line { assert line[..6] == "+CLIP:"; }
    if |line| >= 6 && line[..6] == "+CLIP:" { assert line == "+CLIP:" + line[6..]; }
  }

  // An empty line, or the echo of a command, is not even taken.
  lemma OthersPassBy(p: Port, line: string)
    requires !Shown(line)
    ensures Do(p, Take(line)) == p
  {
    EchoIs(line);
  }

  // ---- each command ----

  // Steps of the reader alone.
  predicate Readers(steps: seq<Step>) {
    forall i :: 0 <= i < |steps| ==> steps[i].Take? || steps[i].Judge? || steps[i].Emit? || steps[i].Prompt?
  }

  // They can end the command but neither start one nor move the sender.
  lemma {:induction false} ReadersLeaveSender(p: Port, steps: seq<Step>)
    requires Readers(steps)
    ensures var q := Run(p, steps);
      q.sender == p.sender && q.shared.next == p.shared.next && q.shared.active == p.shared.active
      && (q.shared.waiting ==> p.shared.waiting)
  {
    if steps != [] { ReadersLeaveSender(p, steps[..|steps| - 1]); }
  }

  // The sender is done: nothing waits, and what was read, reported and completed is as before.
  predicate Ended(p: Port, q: Port) {
    && q.sender == Resting && !q.shared.waiting && q.shared.next == p.shared.next
    && q.reader == p.reader && q.taken == p.taken && q.events == p.events && q.done == p.done
  }

  // Whatever the reader does meanwhile, a command whose write fails is over, and completed by nothing.
  lemma FailedWriteEnds(p: Port, a: seq<Step>)
    requires p.sender == Resting && Readers(a)
    ensures var q := Run(Do(p, Start), a); Ended(q, Do(q, WriteFails))
  {
    ReadersLeaveSender(Do(p, Start), a);
  }

  // One that was written waits, whatever the reader does, until it is completed or its time is over.
  lemma WrittenWaits(p: Port, a: seq<Step>, b: seq<Step>, timedOut: bool)
    requires p.sender == Resting && Readers(a) && Readers(b)
    ensures var q := Run(Do(Run(Do(p, Start), a), WriteSucceeds), b);
      var r := Do(q, WaitEnds(timedOut));
      q.sender == Waiting && if q.shared.waiting && !timedOut then r == q else Ended(q, r)
  {
    ReadersLeaveSender(Do(p, Start), a);
    ReadersLeaveSender(Do(Run(Do(p, Start), a), WriteSucceeds), b);
  }
}

/** The receive buffer of at-daemon/src/at_handler.c as it is used: one array, cut up and moved up in place. */
module FramingCode {
  import opened FramingModel

  class LineReader {
    const buffer: array<char>
    var pos: nat
    var waiting: bool     // waiting_for_response
    var id: nat           // active_command_id
    var flags: seq<string>

    ghost predicate Valid()
      reads this`pos, buffer
    {
      buffer.Length == MAX_BUFFER && pos < MAX_BUFFER && buffer[pos] == NUL
    }

    ghost function Ear(): Listener
      reads this`waiting, this`id, this`flags
    {
      Listener(waiting, id, flags)
    }

    ghost function View(): Reader
      reads this, buffer
      requires Valid()
    {
      Reader(buffer[..pos], Ear())
    }

    constructor ()
      ensures Valid() && fresh(buffer) && View() == Reader("", Listener(false, 0, []))
    {
      buffer := new char[MAX_BUFFER](_ => NUL);
      pos, waiting, id, flags := 0, false, 0, [];
    }

    /** strlen from `start`. */
    method StrLen(start: nat) returns (n: nat)
      requires Valid() && start <= pos
      ensures start + n <= pos && n == |CStr(buffer[start..pos])|
    {
      n := 0;
      while buffer[start + n] != NUL
        invariant start + n <= pos
        invariant forall i | start <= i < start + n :: buffer[i] != NUL
        decreases pos - n
      {
        n := n + 1;
      }
      CStrIs(buffer[start..pos], n);
    }

    /** strstr for CRLF from `start`, which stops at the first NUL. */
    method StrStr(start: nat) returns (found: bool, at: nat)
      requires Valid() && start <= pos
      ensures var c := CStr(buffer[start..pos]);
              && found == (CrlfAt(c) < |c|)
              && (found ==> at == start + CrlfAt(c) && at + 2 <= start + |c| <= pos)
    {
      var n := StrLen(start);
      ghost var c := CStr(buffer[start..pos]);
      CStrPrefix(buffer[start..pos]);
      at := start;
      while at + 1 < start + n
        invariant start <= at && (at <= start + n || n == 0)
        invariant forall i: nat | i < at - start :: !CrlfHere(c, i)
      {
        assert c[at - start] == buffer[at] && c[at - start + 1] == buffer[at + 1];
        if buffer[at] == '\r' && buffer[at + 1] == '\n' {
          CrlfIs(c, at - start);
          return true, at;
        }
        at := at + 1;
      }
      CrlfNone(c);
      return false, at;
    }

    /** Classify one complete line, completing the waiting command if it ends it. */
    method Process(line: string) returns (heard: seq<Heard>)
      modifies this`waiting
      ensures Ear() == Hear(old(Ear()), line) && heard == Report(old(Ear()), line)
    {
      heard := [];
      if line == "" { return; }
      var isEcho := "AT" <= line;
      var wasWaiting := waiting && !isEcho;
      var isTerminal := false;
      if wasWaiting && EndsCommand(flags, line) {
        isTerminal := true;
        if waiting { waiting := false; }
      }
      if !isEcho {
        var correlation := if isTerminal then Terminal
                           else if wasWaiting && Unsolicited(line) then Ambiguous
                           else if wasWaiting then Response else Idle;
        heard := [Heard(line, if wasWaiting then id else 0, correlation)];
      }
    }

    /** Cut the first line off the text at `start` and report it. */
    method TakeLine(start: nat) returns (found: bool, next: nat, heard: seq<Heard>)
      requires Valid() && start <= pos
      modifies this`waiting, buffer
      ensures var c := old(CStr(buffer[start..pos]));
              && found == (CrlfAt(c) < |c|)
              && (if found then
                    && next == start + CrlfAt(c) + 2 <= pos
                    && buffer[next..pos] == old(buffer[start..pos])[next - start..]
                    && heard == Report(old(Ear()), c[..CrlfAt(c)]) && Ear() == Hear(old(Ear()), c[..CrlfAt(c)])
                  else next == start && heard == [] && unchanged(this, buffer))
      ensures Valid()
    {
      ghost var c := CStr(buffer[start..pos]);
      CStrPrefix(buffer[start..pos]);
      heard, next := [], start;
      var at: nat;
      found, at := StrStr(start);
      if found {
        var line := buffer[start..at];
        assert line == c[..CrlfAt(c)];
        buffer[at] := NUL;
        next := at + 2;
        heard := Process(line);
      }
    }

    /** The lines of `text` before `start` have been cut off and heard, and the rest of `raw` is still there. */
    ghost predicate Cut(raw: string, text: string, all: Outcome, start: nat, events: seq<Heard>)
      reads this, buffer
    {
      Valid() && start <= pos == |raw| && CutAt(raw, text, all, start, buffer[start..pos], Ear(), events)
    }

    /** One more line, if there is one. */
    method TakeNext(ghost raw: string, ghost text: string, ghost all: Outcome, start: nat, ghost events: seq<Heard>)
        returns (found: bool, next: nat, heard: seq<Heard>)
      requires Cut(raw, text, all, start, events)
      modifies this`waiting, buffer
      ensures Cut(raw, text, all, next, events + heard) && (if found then start < next else start == next)
      ensures found == (CrlfAt(text[start..]) < |text[start..]|)
    {
      CutNext(raw, text, all, start, buffer[start..pos], Ear(), events);
      found, next, heard := TakeLine(start);
      assert !found ==> events + heard == events;
    }

    /** Report every complete line of the buffer; `start` is where the unfinished text begins. */
    method TakeLines() returns (start: nat, events: seq<Heard>)
      requires Valid()
      modifies this`waiting, buffer
      ensures Valid()
      ensures var text := CStr(old(buffer[..pos]));
              && start == |text| - |Tail(text)| && start <= |text| <= pos
              && (start == 0 <==> Lines(text) == [])
              && buffer[start..pos] == old(buffer[..pos])[start..]
              && events == ReportAll(old(Ear()), Lines(text)) && Ear() == HearAll(old(Ear()), Lines(text))
    {
      ghost var raw, text := buffer[..pos], CStr(buffer[..pos]);
      ghost var all := Whole(Ear(), text);
      assert buffer[0..pos] == raw && raw[0..] == raw && text[0..] == text && [] + all.events == all.events;
      start, events := 0, [];
      var found := true;
      while found
        invariant Cut(raw, text, all, start, events)
        invariant !found ==> CrlfAt(text[start..]) == |text[start..]|
        decreases pos - start, found
      {
        var next: nat;
        var heard: seq<Heard>;
        found, next, heard := TakeNext(raw, text, all, start, events);
        start, events := next, events + heard;
      }
      RestEnds(all, text[start..], Ear(), events);
      TailShorter(text);
    }

    /** One successful read. */
    method Receive(chunk: string) returns (events: seq<Heard>)
      requires Valid()
      modifies this`pos, this`waiting, buffer
      ensures Valid() && View() == Read(old(View()), chunk) && events == Events(old(View()), chunk)
    {
      ghost var r := View();
      if |chunk| > MAX_BUFFER - pos - 1 {
        pos := 0;
        buffer[0] := NUL;
        return [];
      }
      Append(chunk);
      ghost var text := CStr(r.raw + chunk);
      var start: nat;
      start, events := TakeLines();
      LeftOver(r.raw + chunk, start);
      KeepRest(start);
    }

    /** Take the prompt out of the unfinished text, or move the text to the front. */
    method KeepRest(start: nat)
      requires Valid() && start <= pos
      modifies this`pos, this`waiting, buffer
      ensures Valid()
      ensures var rest := old(CStr(buffer[start..pos]));
              var taken := rest != "" && old(waiting) && IsPrompt(flags, rest);
              && waiting == (old(waiting) && !taken)
              && buffer[..pos] == if taken then "" else if start == 0 then old(buffer[start..pos]) else rest
    {
      ghost var left := buffer[start..pos];
      var prompted := TakePrompt(start);
      assert !prompted ==> buffer[start..pos] == left && (start == 0 ==> buffer[..pos] == left);
      if !prompted && start != 0 { MoveUp(start); }
    }

    /** Consume the unfinished text at `start` if it is the prompt that is waited for. */
    method TakePrompt(start: nat) returns (taken: bool)
      requires Valid() && start <= pos
      modifies this`pos, this`waiting, buffer
      ensures Valid()
      ensures var rest := old(CStr(buffer[start..pos]));
              && taken == (rest != "" && old(waiting) && IsPrompt(flags, rest))
              && if taken then pos == 0 && !waiting else unchanged(this, buffer)
    {
      var n := StrLen(start);
      CStrPrefix(buffer[start..pos]);
      var rest := buffer[start..start + n];
      assert rest == CStr(buffer[start..pos]);
      taken := rest != "" && waiting && IsPrompt(flags, rest);
      if taken {
        waiting := false;
        pos := 0;
        buffer[0] := NUL;
      }
    }

    method Append(chunk: string)
      requires Valid() && pos + |chunk| + 1 <= MAX_BUFFER
      modifies this`pos, buffer
      ensures Valid() && buffer[..pos] == old(buffer[..pos]) + chunk
    {
      forall i | 0 <= i < |chunk| { buffer[pos + i] := chunk[i]; }
      pos := pos + |chunk|;
      buffer[pos] := NUL;
    }

    /** memmove the unfinished text, its terminator included, to the front. */
    method MoveUp(start: nat)
      requires Valid() && start <= pos
      modifies this`pos, buffer
      ensures Valid() && buffer[..pos] == old(CStr(buffer[start..pos]))
    {
      var n := StrLen(start);
      CStrPrefix(buffer[start..pos]);
      forall i | 0 <= i < n { buffer[i] := buffer[start + i]; }
      buffer[n] := NUL;
      pos := n;
    }
  }

  // ---------------------------------------------------------------- lemmas on the loop

  /** What cutting up a text comes to. */
  datatype Outcome = Outcome(events: seq<Heard>, ear: Listener, tail: string)

  function Whole(ear: Listener, text: string): Outcome {
    Outcome(ReportAll(ear, Lines(text)), HearAll(ear, Lines(text)), Tail(text))
  }

  /** With `left` still to be cut up, what has been heard and what is left make up the whole. */
  ghost predicate Rest(all: Outcome, left: string, now: Listener, events: seq<Heard>) {
    var more := Whole(now, left);
    all.events == events + more.events && all.ear == more.ear && all.tail == more.tail
  }

  lemma HearCons(l: Listener, line: string, more: seq<string>)
    ensures ReportAll(l, [line] + more) == Report(l, line) + ReportAll(Hear(l, line), more)
    ensures HearAll(l, [line] + more) == HearAll(Hear(l, line), more)
  {
    assert ([line] + more)[1..] == more;
  }

  lemma RestStep(all: Outcome, left: string, now: Listener, events: seq<Heard>)
    requires Rest(all, left, now, events) && CrlfAt(left) < |left|
    ensures var line := left[..CrlfAt(left)];
            Rest(all, left[CrlfAt(left) + 2..], Hear(now, line), events + Report(now, line))
  {
    var line := left[..CrlfAt(left)];
    var more := Lines(left[CrlfAt(left) + 2..]);
    HearCons(now, line, more);
    Chain(events, Report(now, line), ReportAll(Hear(now, line), more));
  }

  lemma RestEnds(all: Outcome, left: string, now: Listener, events: seq<Heard>)
    requires Rest(all, left, now, events) && CrlfAt(left) == |left|
    ensures all == Outcome(events, now, left)
  {
    assert events + [] == events;
  }

  ghost predicate CutAt(raw: string, text: string, all: Outcome, start: nat, bytes: string, now: Listener,
                        events: seq<Heard>)
  {
    && start <= |text| <= |raw| && bytes == raw[start..] && CStr(bytes) == text[start..]
    && Rest(all, text[start..], now, events)
  }

  lemma CutNext(raw: string, text: string, all: Outcome, start: nat, bytes: string, now: Listener,
                events: seq<Heard>)
    requires CutAt(raw, text, all, start, bytes, now, events)
    ensures var c := CStr(bytes);
            CrlfAt(c) < |c| ==>
              var line, n := c[..CrlfAt(c)], CrlfAt(c) + 2;
              CutAt(raw, text, all, start + n, bytes[n..], Hear(now, line), events + Report(now, line))
  {
    var c := CStr(bytes);
    if CrlfAt(c) < |c| {
      RestStep(all, c, now, events);
      BytesNext(raw, text, start, bytes, CrlfAt(c) + 2);
    }
  }

  lemma BytesNext(raw: string, text: string, start: nat, bytes: string, n: nat)
    requires start <= |text| <= |raw| && bytes == raw[start..] && CStr(bytes) == text[start..] && n <= |CStr(bytes)|
    ensures bytes[n..] == raw[start + n..] && CStr(bytes[n..]) == CStr(bytes)[n..] == text[start + n..]
  {
    CStrDrop(bytes, n);
  }

  /** What the string functions see of the bytes behind the last complete line. */
  lemma LeftOver(raw: string, start: nat)
    requires var text := CStr(raw); start == |text| - |Tail(text)| && start <= |text|
    ensures CStr(raw[start..]) == Tail(CStr(raw)) && (start == 0 ==> raw[start..] == raw)
  {
    CStrDrop(raw, start);
    TailIdle(CStr(raw));
  }

  // ---------------------------------------------------------------- lemmas on the string functions

  predicate CrlfHere(s: string, i: nat) { i + 1 < |s| && s[i] == '\r' && s[i + 1] == '\n' }

  lemma {:induction false} CStrIs(s: string, n: nat)
    requires n <= |s| && (n < |s| ==> s[n] == NUL) && forall i | 0 <= i < n :: s[i] != NUL
    ensures |CStr(s)| == n
  {
    if n > 0 { CStrIs(s[1..], n - 1); }
  }

  lemma {:induction false} CStrDrop(s: string, k: nat)
    requires k <= |CStr(s)|
    ensures CStr(s[k..]) == CStr(s)[k..]
  {
    if k > 0 {
      CStrDrop(s[1..], k - 1);
      assert s[k..] == s[1..][k - 1..];
    } else {
      assert s[0..] == s;
    }
  }

  lemma {:induction false} CrlfIs(s: string, j: nat)
    requires CrlfHere(s, j) && forall i: nat | i < j :: !CrlfHere(s, i)
    ensures CrlfAt(s) == j
  {
    if j > 0 {
      assert !CrlfHere(s, 0) && forall i: nat | i < j - 1 :: CrlfHere(s[1..], i) == CrlfHere(s, i + 1);
      CrlfIs(s[1..], j - 1);
    }
  }

  lemma {:induction false} CrlfNone(s: string)
    requires forall i: nat | i < |s| :: !CrlfHere(s, i)
    ensures CrlfAt(s) == |s|
  {
    if |s| >= 2 {
      assert !CrlfHere(s, 0) && forall i: nat | i < |s[1..]| :: CrlfHere(s[1..], i) == CrlfHere(s, i + 1);
      CrlfNone(s[1..]);
    }
  }
}

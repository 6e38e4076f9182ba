/** The line splitter of the reader thread of at-daemon/src/at_handler.c, on what its buffer holds. */
module FramingModel {

  const MAX_BUFFER: nat := 32768
  const TRIM_MAX: nat := 1023
  const NUL: char := '\0'

  // ---------------------------------------------------------------- C strings and CRLF

  /** What the C string functions see of some bytes: everything before the first NUL. */
  function CStr(s: string): (c: string)
    ensures |c| <= |s|
  {
    if s == "" || s[0] == NUL then "" else [s[0]] + CStr(s[1..])
  }

  predicate NulFree(s: string) { NUL !in s }

  /** Where the first CRLF begins, or the length if there is none. */
  function CrlfAt(s: string): (j: nat)
    ensures j <= |s| && (j < |s| ==> j + 1 < |s|)
  {
    if |s| < 2 then |s| else if s[0] == '\r' && s[1] == '\n' then 0 else 1 + CrlfAt(s[1..])
  }

  /** The complete lines of a text. */
  function Lines(s: string): seq<string>
    decreases |s|
  {
    if CrlfAt(s) == |s| then [] else [s[..CrlfAt(s)]] + Lines(s[CrlfAt(s) + 2..])
  }

  /** What follows the last complete line. */
  function Tail(s: string): string
    decreases |s|
  {
    if CrlfAt(s) == |s| then s else Tail(s[CrlfAt(s) + 2..])
  }

  // ---------------------------------------------------------------- end flags

  predicate IsBlank(c: char) { c == ' ' || c == '\t' || c == '\r' || c == '\n' }

  function TrimLeft(s: string): string { if s != "" && IsBlank(s[0]) then TrimLeft(s[1..]) else s }

  function TrimRight(s: string): string
  {
    if s != "" && IsBlank(s[|s| - 1]) then TrimRight(s[..|s| - 1]) else s
  }

  function Trim(s: string): string { TrimRight(TrimLeft(if |s| > TRIM_MAX then s[..TRIM_MAX] else s)) }

  /** A flag is the whole trimmed line, or its beginning with a blank after it. */
  predicate FlagMatches(flag: string, line: string) {
    || Trim(line) == flag
    || (flag != "" && |Trim(line)| > |flag| && flag <= Trim(line)
        && (Trim(line)[|flag|] == ' ' || Trim(line)[|flag|] == '\t'))
  }

  predicate EndsCommand(flags: seq<string>, line: string) { exists i | 0 <= i < |flags| :: FlagMatches(flags[i], line) }

  /** The prompt is the first flag that the text matches. */
  predicate IsPrompt(flags: seq<string>, text: string) {
    exists i | 0 <= i < |flags| ::
      flags[i] == ">" && FlagMatches(flags[i], text) && forall j | 0 <= j < i :: !FlagMatches(flags[j], text)
  }

  // ---------------------------------------------------------------- listening

  datatype Correlation = Idle | Response | Terminal | Ambiguous

  datatype Heard = Heard(line: string, commandId: nat, correlation: Correlation)

  /** What the reader knows of the command that waits for an answer. */
  datatype Listener = Listener(waiting: bool, id: nat, flags: seq<string>)

  predicate IsEcho(line: string) { "AT" <= line }

  predicate Reported(line: string) { line != "" && !IsEcho(line) }

  predicate Unsolicited(line: string) { line == "RING" || "+CLIP:" <= line }

  function Hear(l: Listener, line: string): Listener {
    if Reported(line) && l.waiting && EndsCommand(l.flags, line) then l.(waiting := false) else l
  }

  function Report(l: Listener, line: string): seq<Heard> {
    if !Reported(line) then []
    else if !l.waiting then [Heard(line, 0, Idle)]
    else if EndsCommand(l.flags, line) then [Heard(line, l.id, Terminal)]
    else [Heard(line, l.id, if Unsolicited(line) then Ambiguous else Response)]
  }

  function HearAll(l: Listener, lines: seq<string>): Listener
    decreases |lines|
  {
    if lines == [] then l else HearAll(Hear(l, lines[0]), lines[1..])
  }

  function ReportAll(l: Listener, lines: seq<string>): seq<Heard>
    decreases |lines|
  {
    if lines == [] then [] else Report(l, lines[0]) + ReportAll(Hear(l, lines[0]), lines[1..])
  }

  // ---------------------------------------------------------------- one read

  datatype Reader = Reader(raw: string, ear: Listener)

  predicate Fits(r: Reader, chunk: string) { |r.raw| + |chunk| + 1 <= MAX_BUFFER }

  /** The unfinished text is a prompt that completes the waiting command and is taken out of the buffer. */
  predicate TakesPrompt(r: Reader, chunk: string) {
    var text := CStr(r.raw + chunk);
    var ear := HearAll(r.ear, Lines(text));
    Tail(text) != "" && ear.waiting && IsPrompt(ear.flags, Tail(text))
  }

  /** A read appends to the buffer, or resets it when the bytes do not fit.  The buffer is only moved up, and
      cut at the first NUL, when something was consumed from its front. */
  function Read(r: Reader, chunk: string): Reader {
    if !Fits(r, chunk) then Reader("", r.ear)
    else
      var text := CStr(r.raw + chunk);
      var ear := HearAll(r.ear, Lines(text));
      if TakesPrompt(r, chunk) then Reader("", ear.(waiting := false))
      else if Lines(text) == [] then Reader(r.raw + chunk, ear)
      else Reader(Tail(text), ear)
  }

  function Events(r: Reader, chunk: string): seq<Heard> {
    if !Fits(r, chunk) then [] else ReportAll(r.ear, Lines(CStr(r.raw + chunk)))
  }

  function ReadAll(r: Reader, chunks: seq<string>): Reader
    decreases |chunks|
  {
    if chunks == [] then r else ReadAll(Read(r, chunks[0]), chunks[1..])
  }

  function EventsAll(r: Reader, chunks: seq<string>): seq<Heard>
    decreases |chunks|
  {
    if chunks == [] then [] else Events(r, chunks[0]) + EventsAll(Read(r, chunks[0]), chunks[1..])
  }

  function Concat(chunks: seq<string>): string { if chunks == [] then "" else chunks[0] + Concat(chunks[1..]) }

  /** No read overflows the buffer and none takes a prompt. */
  predicate Smooth(r: Reader, chunks: seq<string>)
    decreases |chunks|
  {
    chunks == [] || (Fits(r, chunks[0]) && !TakesPrompt(r, chunks[0]) && Smooth(Read(r, chunks[0]), chunks[1..]))
  }

  // ---------------------------------------------------------------- chunks do not matter

  lemma {:induction false} CStrWhole(s: string)
    requires NulFree(s)
    ensures CStr(s) == s
  {
    if s != "" {
      assert forall i | 0 <= i < |s[1..]| :: s[1..][i] == s[i + 1];
      CStrWhole(s[1..]);
    }
  }

  lemma {:induction false} CrlfStays(s: string, t: string)
    requires CrlfAt(s) < |s|
    ensures CrlfAt(s + t) == CrlfAt(s)
  {
    if !(s[0] == '\r' && s[1] == '\n') {
      assert (s + t)[1..] == s[1..] + t;
      CrlfStays(s[1..], t);
    }
  }

  /** The lines of a text that grows are the lines it had and the lines of its tail with what came. */
  ghost predicate Grows(s: string, t: string) {
    Lines(s + t) == Lines(s) + Lines(Tail(s) + t) && Tail(s + t) == Tail(Tail(s) + t)
  }

  lemma {:induction false} SplitGrows(s: string, t: string)
    ensures Grows(s, t)
    decreases |s|
  {
    var j := CrlfAt(s);
    if j == |s| {
      assert [] + Lines(s + t) == Lines(s + t);
    } else {
      CrlfStays(s, t);
      var rest := s[j + 2..];
      assert (s + t)[j + 2..] == rest + t && (s + t)[..j] == s[..j];
      SplitGrows(rest, t);
      Chain([s[..j]], Lines(rest), Lines(Tail(rest) + t));
    }
  }

  lemma Chain<T>(a: seq<T>, b: seq<T>, c: seq<T>)
    ensures a + (b + c) == a + b + c
  {
  }

  lemma {:induction false} HearSplits(l: Listener, a: seq<string>, b: seq<string>)
    ensures HearAll(l, a + b) == HearAll(HearAll(l, a), b)
    ensures ReportAll(l, a + b) == ReportAll(l, a) + ReportAll(HearAll(l, a), b)
    decreases |a|
  {
    if a == [] {
      assert a + b == b;
    } else {
      assert (a + b)[1..] == a[1..] + b;
      HearSplits(Hear(l, a[0]), a[1..], b);
    }
  }

  lemma {:induction false} TailIdle(s: string)
    ensures |Tail(s)| <= |s| && Tail(s) == s[|s| - |Tail(s)|..]
    ensures Lines(Tail(s)) == [] && Tail(Tail(s)) == Tail(s)
    decreases |s|
  {
    var j := CrlfAt(s);
    if j < |s| {
      var rest := s[j + 2..];
      TailIdle(rest);
      assert rest[|rest| - |Tail(rest)|..] == s[|s| - |Tail(rest)|..];
    }
  }

  lemma {:induction false} TailShorter(text: string)
    ensures if Lines(text) == [] then Tail(text) == text else |Tail(text)| < |text|
    decreases |text|
  {
    if CrlfAt(text) < |text| { TailShorter(text[CrlfAt(text) + 2..]); }
  }

  lemma {:induction false} CStrPrefix(s: string)
    ensures CStr(s) == s[..|CStr(s)|] && NUL !in CStr(s) && (|CStr(s)| < |s| ==> s[|CStr(s)|] == NUL)
  {
    if s != "" && s[0] != NUL {
      CStrPrefix(s[1..]);
    }
  }

  /** One read, on a text without NULs that neither overflows nor takes a prompt. */
  lemma SmoothRead(r: Reader, chunk: string)
    requires NulFree(r.raw) && NulFree(chunk) && Fits(r, chunk) && !TakesPrompt(r, chunk)
    ensures Read(r, chunk) == Reader(Tail(r.raw + chunk), HearAll(r.ear, Lines(r.raw + chunk)))
    ensures Events(r, chunk) == ReportAll(r.ear, Lines(r.raw + chunk))
    ensures NulFree(Tail(r.raw + chunk))
  {
    CStrWhole(r.raw + chunk);
    TailIdle(r.raw + chunk);
    if Lines(r.raw + chunk) == [] { assert CrlfAt(r.raw + chunk) == |r.raw + chunk|; }
  }

  ghost predicate AllNulFree(chunks: seq<string>) { forall c | c in chunks :: NulFree(c) }

  /** Chunk-independent framing: however a NUL-free byte stream is cut, while no read overflows or takes a
      prompt, the events are those of the lines of the whole stream (empty ones and echoes left out), with
      the same command ids and correlations, and the bytes kept are its unfinished tail. */
  lemma {:induction false} ChunksDoNotMatter(r: Reader, chunks: seq<string>)
    requires NulFree(r.raw) && AllNulFree(chunks) && Smooth(r, chunks)
    requires Lines(r.raw) == [] && Tail(r.raw) == r.raw
    ensures var text := r.raw + Concat(chunks);
            && EventsAll(r, chunks) == ReportAll(r.ear, Lines(text))
            && ReadAll(r, chunks) == Reader(Tail(text), HearAll(r.ear, Lines(text)))
    decreases |chunks|
  {
    if chunks == [] {
      assert r.raw + "" == r.raw;
    } else {
      var c, more := chunks[0], chunks[1..];
      assert NulFree(c) && AllNulFree(more) by { assert c in chunks && forall x | x in more :: x in chunks; }
      var a := r.raw + c;
      var next := Read(r, c);
      SmoothRead(r, c);
      TailIdle(a);
      ChunksDoNotMatter(next, more);
      SplitGrows(a, Concat(more));
      Chain(r.raw, c, Concat(more));
      HearSplits(r.ear, Lines(a), Lines(Tail(a) + Concat(more)));
    }
  }

  /** Two ways of cutting one stream give the same events and leave the same state. */
  lemma AnyTwoCuts(ear: Listener, chunks: seq<string>, others: seq<string>)
    requires Concat(chunks) == Concat(others) && NulFree(Concat(chunks))
    requires Smooth(Reader("", ear), chunks) && Smooth(Reader("", ear), others)
    ensures EventsAll(Reader("", ear), chunks) == EventsAll(Reader("", ear), others)
    ensures ReadAll(Reader("", ear), chunks) == ReadAll(Reader("", ear), others)
  {
    PiecesNulFree(chunks);
    PiecesNulFree(others);
    ChunksDoNotMatter(Reader("", ear), chunks);
    ChunksDoNotMatter(Reader("", ear), others);
  }

  lemma {:induction false} PiecesNulFree(chunks: seq<string>)
    requires NulFree(Concat(chunks))
    ensures AllNulFree(chunks)
  {
    if chunks != [] {
      var rest := Concat(chunks[1..]);
      assert forall i | 0 <= i < |chunks[0]| :: Concat(chunks)[i] == chunks[0][i];
      assert forall i | 0 <= i < |rest| :: Concat(chunks)[|chunks[0]| + i] == rest[i];
      PiecesNulFree(chunks[1..]);
    }
  }

  // ---------------------------------------------------------------- what a NUL does

  /** A NUL that no CRLF precedes hides everything after it. */
  predicate Deaf(raw: string) { |CStr(raw)| < |raw| && CrlfAt(CStr(raw)) == |CStr(raw)| }

  lemma {:induction false} CStrStops(s: string, t: string)
    requires |CStr(s)| < |s|
    ensures CStr(s + t) == CStr(s)
  {
    if s[0] != NUL {
      assert (s + t)[1..] == s[1..] + t;
      CStrStops(s[1..], t);
    }
  }

  lemma StaysDeaf(r: Reader, c: string)
    requires Deaf(r.raw) && Fits(r, c) && !TakesPrompt(r, c)
    ensures Deaf(r.raw + c) && Events(r, c) == [] && Read(r, c) == Reader(r.raw + c, r.ear)
  {
    CStrStops(r.raw, c);
  }

  /** A NUL byte in the unfinished text makes the reader deaf: no later line is reported, whatever arrives,
      until the buffer overflows or a waiting command takes the text as its prompt. */
  lemma {:induction false} NulDeafens(r: Reader, chunks: seq<string>)
    requires Deaf(r.raw) && Smooth(r, chunks)
    ensures EventsAll(r, chunks) == []
    ensures ReadAll(r, chunks) == Reader(r.raw + Concat(chunks), r.ear)
    decreases |chunks|
  {
    if chunks == [] {
      assert r.raw + "" == r.raw;
    } else {
      var c := chunks[0];
      StaysDeaf(r, c);
      NulDeafens(Reader(r.raw + c, r.ear), chunks[1..]);
      Chain(r.raw, c, Concat(chunks[1..]));
    }
  }

  // ---------------------------------------------------------------- exactly when framing is right

  /** Reading these chunks reports the lines of the whole stream and keeps its unfinished tail. */
  ghost predicate Faithful(ear: Listener, chunks: seq<string>) {
    var r, text := Reader("", ear), Concat(chunks);
    && EventsAll(r, chunks) == ReportAll(ear, Lines(text))
    && ReadAll(r, chunks) == Reader(Tail(text), HearAll(ear, Lines(text)))
  }

  lemma {:induction false} IdleStays(ear: Listener, lines: seq<string>)
    requires !ear.waiting
    ensures HearAll(ear, lines) == ear
    decreases |lines|
  {
    if lines != [] { IdleStays(ear, lines[1..]); }
  }

  /** While nothing waits and the stream fits the buffer, every cut of it is smooth. */
  lemma {:induction false} RoomySmooth(r: Reader, chunks: seq<string>)
    requires |r.raw| + |Concat(chunks)| < MAX_BUFFER && !r.ear.waiting
    ensures Smooth(r, chunks)
    decreases |chunks|
  {
    if chunks != [] {
      var text := CStr(r.raw + chunks[0]);
      IdleStays(r.ear, Lines(text));
      TailIdle(text);
      RoomySmooth(Read(r, chunks[0]), chunks[1..]);
    }
  }

  lemma NulFreeFaithful(ear: Listener, chunks: seq<string>)
    requires |Concat(chunks)| < MAX_BUFFER && !ear.waiting && NulFree(Concat(chunks))
    ensures Faithful(ear, chunks)
  {
    RoomySmooth(Reader("", ear), chunks);
    PiecesNulFree(chunks);
    ChunksDoNotMatter(Reader("", ear), chunks);
    assert "" + Concat(chunks) == Concat(chunks);
  }

  lemma PrefixUncut(s: string, k: nat)
    requires CrlfAt(s) == |s| && k <= |s|
    ensures CrlfAt(s[..k]) == k
  {
    assert s == s[..k] + s[k..];
    if CrlfAt(s[..k]) < k { CrlfStays(s[..k], s[k..]); }
  }

  /** Where no line ends, the bytes just pile up, NULs and all. */
  lemma {:induction false} UncutPilesUp(r: Reader, chunks: seq<string>)
    requires |r.raw| + |Concat(chunks)| < MAX_BUFFER && !r.ear.waiting
    requires CrlfAt(r.raw + Concat(chunks)) == |r.raw| + |Concat(chunks)|
    ensures EventsAll(r, chunks) == [] && ReadAll(r, chunks) == Reader(r.raw + Concat(chunks), r.ear)
    decreases |chunks|
  {
    if chunks == [] {
      assert r.raw + "" == r.raw;
    } else {
      var c, rest := chunks[0], Concat(chunks[1..]);
      Chain(r.raw, c, rest);
      CStrPrefix(r.raw + c);
      assert (r.raw + c + rest)[..|CStr(r.raw + c)|] == CStr(r.raw + c);
      PrefixUncut(r.raw + c + rest, |CStr(r.raw + c)|);
      UncutPilesUp(Reader(r.raw + c, r.ear), chunks[1..]);
    }
  }

  lemma {:induction false} StopsAtNul(s: string, t: string)
    requires NulFree(s) && t != "" && t[0] == NUL
    ensures CStr(s + t) == s
  {
    if s == "" {
      assert s + t == t;
    } else {
      assert (s + t)[1..] == s[1..] + t && forall i | 0 <= i < |s[1..]| :: s[1..][i] == s[i + 1];
      StopsAtNul(s[1..], t);
    }
  }

  lemma IdleRead(r: Reader, c: string)
    requires Fits(r, c) && !r.ear.waiting
    ensures var text := CStr(r.raw + c);
            Read(r, c) == Reader(if Lines(text) == [] then r.raw + c else Tail(text), r.ear)
  {
    IdleStays(r.ear, Lines(CStr(r.raw + c)));
  }

  lemma ReadOne(r: Reader, a: string)
    ensures ReadAll(r, [a]) == Read(r, a) && Concat([a]) == a
  {
    assert [a][1..] == [] && a + "" == a;
  }

  lemma ReadTwo(r: Reader, a: string, b: string)
    ensures ReadAll(r, [a, b]) == Read(Read(r, a), b) && Concat([a, b]) == a + b
  {
    assert [a, b][1..] == [b];
    ReadOne(Read(r, a), b);
  }

  /** A NUL behind the last line is lost when the stream is read at once. */
  lemma OneReadFails(ear: Listener, s: string)
    requires |s| < MAX_BUFFER && !ear.waiting && CrlfAt(s) < |s| && !NulFree(Tail(s))
    ensures Concat([s]) == s && !Faithful(ear, [s])
  {
    var r := Reader("", ear);
    ReadOne(r, s);
    assert r.raw + s == s;
    IdleRead(r, s);
    LostOrWhole(s);
  }

  /** What such a read keeps is not the tail. */
  lemma LostOrWhole(s: string)
    requires CrlfAt(s) < |s| && !NulFree(Tail(s))
    ensures (if Lines(CStr(s)) == [] then s else Tail(CStr(s))) != Tail(s)
  {
    TailShorter(s);
    CStrPrefix(s);
    TailIdle(CStr(s));
  }

  /** A NUL before the last line end stays in the buffer when the stream is read in two parts, cut there. */
  lemma TwoReadsFail(ear: Listener, s: string)
    requires |s| < MAX_BUFFER && !ear.waiting && !NulFree(s) && NulFree(Tail(s))
    ensures var p := |CStr(s)|; Concat([s[..p], s[p..]]) == s && !Faithful(ear, [s[..p], s[p..]])
  {
    var p := |CStr(s)|;
    CStrPrefix(s);
    if p == |s| { CStrWhole(s); }
    var a, b := s[..p], s[p..];
    ReadsTwo(ear, a, b);
    assert a + b == s;
  }

  lemma ReadsTwo(ear: Listener, a: string, b: string)
    requires |a| + |b| < MAX_BUFFER && !ear.waiting && NulFree(a) && b != "" && b[0] == NUL
    ensures Concat([a, b]) == a + b && ReadAll(Reader("", ear), [a, b]).raw == Tail(a) + b
    ensures NUL in Tail(a) + b
  {
    var r := Reader("", ear);
    ReadTwo(r, a, b);
    IdleStays(ear, Lines(a));
    assert r.raw + a == a;
    CStrWhole(a);
    SmoothRead(r, a);
    TailIdle(a);
    StopsAtNul(Tail(a), b);
    IdleRead(Reader(Tail(a), ear), b);
    assert (Tail(a) + b)[|Tail(a)|] == NUL;
  }

  /** Framing is right however a stream is cut, if and only if the stream holds no NUL or no line end.  The
      stream fits the buffer, and no command waits. */
  lemma FramingExact(ear: Listener, s: string)
    requires |s| < MAX_BUFFER && !ear.waiting
    ensures (forall chunks | Concat(chunks) == s :: Faithful(ear, chunks)) <==> NulFree(s) || CrlfAt(s) == |s|
  {
    if NulFree(s) || CrlfAt(s) == |s| {
      forall chunks | Concat(chunks) == s ensures Faithful(ear, chunks) {
        if NulFree(s) {
          NulFreeFaithful(ear, chunks);
        } else {
          assert "" + s == s;
          UncutPilesUp(Reader("", ear), chunks);
        }
      }
    } else if NulFree(Tail(s)) {
      TwoReadsFail(ear, s);
    } else {
      OneReadFails(ear, s);
    }
  }
}

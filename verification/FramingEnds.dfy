/** When a waiting command ends, and what its lines are reported with (at-daemon/src/at_handler.c:351-432). */
module FramingEnds {
  import opened FramingModel

  // ---------------------------------------------------------------- the lines of one command

  /** A line that is passed on: not empty and not the echo of a command. */
  predicate Shown(line: string) { line != "" && !(|line| >= 2 && line[0] == 'A' && line[1] == 'T') }

  function ShownOf(lines: seq<string>): seq<string> {
    if lines == [] then [] else (if Shown(lines[0]) then [lines[0]] else []) + ShownOf(lines[1..])
  }

  /** The first line that ends a command with these flags, or the number of lines. */
  function EndAt(flags: seq<string>, lines: seq<string>): (k: nat)
    ensures k <= |lines|
    ensures k < |lines| ==> Shown(lines[k]) && EndsCommand(flags, lines[k])
    ensures forall i :: 0 <= i < k ==> !(Shown(lines[i]) && EndsCommand(flags, lines[i]))
  {
    if lines == [] || (Shown(lines[0]) && EndsCommand(flags, lines[0])) then 0 else 1 + EndAt(flags, lines[1..])
  }

  /** What no command waits for. */
  function Idles(lines: seq<string>): seq<Heard> {
    seq(|lines|, i requires 0 <= i < |lines| => Heard(lines[i], 0, Idle))
  }

  predicate Urgent(line: string) { line == "RING" || (|line| >= 6 && line[..6] == "+CLIP:") }

  /** What a command hears before its end: everything is its own, a ring or a caller's number perhaps not. */
  function Own(id: nat, lines: seq<string>): seq<Heard> {
    seq(|lines|, i requires 0 <= i < |lines| => Heard(lines[i], id, if Urgent(lines[i]) then Ambiguous else Response))
  }

  lemma ShownIsReported(line: string)
    ensures Shown(line) == Reported(line) && Urgent(line) == Unsolicited(line)
  {
    if |line| >= 2 { assert line[..2] == [line[0], line[1]] && "AT" == ['A', 'T']; }
    if "+CLIP:" <= line { assert line[..6] == "+CLIP:"; }
    if |line| >= 6 && line[..6] == "+CLIP:" { assert line == "+CLIP:" + line[6..]; }
  }

  lemma {:induction false} IdleHears(ear: Listener, lines: seq<string>)
    requires !ear.waiting
    ensures HearAll(ear, lines) == ear && ReportAll(ear, lines) == Idles(ShownOf(lines))
    decreases |lines|
  {
    if lines != [] {
      ShownIsReported(lines[0]);
      IdleHears(ear, lines[1..]);
      assert Idles([lines[0]] + ShownOf(lines[1..])) == [Heard(lines[0], 0, Idle)] + Idles(ShownOf(lines[1..]));
      assert [] + ShownOf(lines[1..]) == ShownOf(lines[1..]);
    }
  }

  lemma OwnCons(id: nat, line: string, more: seq<string>)
    ensures Own(id, [line] + more) == [Heard(line, id, if Urgent(line) then Ambiguous else Response)] + Own(id, more)
    ensures Own(id, [] + more) == Own(id, more)
  {
    assert [] + more == more;
  }

  /** While no line ends the command it goes on waiting, and every line is its own. */
  lemma {:induction false} GoesOnWaiting(ear: Listener, lines: seq<string>)
    requires ear.waiting && EndAt(ear.flags, lines) == |lines|
    ensures HearAll(ear, lines) == ear && ReportAll(ear, lines) == Own(ear.id, ShownOf(lines))
    decreases |lines|
  {
    if lines != [] {
      ShownIsReported(lines[0]);
      GoesOnWaiting(ear, lines[1..]);
      OwnCons(ear.id, lines[0], ShownOf(lines[1..]));
    }
  }

  /** The line that ends the command is its terminal one; what was before is its own, and what comes behind is
      nobody's: the sender is woken and the listener waits no longer. */
  lemma EndsOnce(ear: Listener, lines: seq<string>)
    requires ear.waiting && EndAt(ear.flags, lines) < |lines|
    ensures var k := EndAt(ear.flags, lines);
            && !HearAll(ear, lines).waiting
            && ReportAll(ear, lines)
               == Own(ear.id, ShownOf(lines[..k])) + [Heard(lines[k], ear.id, Terminal)]
                  + Idles(ShownOf(lines[k + 1..]))
  {
    var k := EndAt(ear.flags, lines);
    EndAtPrefix(ear.flags, lines);
    SplitAt(lines, k);
    EndsAt(ear, lines[..k], lines[k], lines[k + 1..]);
  }

  lemma SplitAt(lines: seq<string>, k: nat)
    requires k < |lines|
    ensures lines == lines[..k] + ([lines[k]] + lines[k + 1..])
  {
  }

  lemma EndsAt(ear: Listener, before: seq<string>, line: string, after: seq<string>)
    requires ear.waiting && EndAt(ear.flags, before) == |before| && Shown(line) && EndsCommand(ear.flags, line)
    ensures var lines := before + ([line] + after);
            && !HearAll(ear, lines).waiting
            && ReportAll(ear, lines)
               == Own(ear.id, ShownOf(before)) + [Heard(line, ear.id, Terminal)] + Idles(ShownOf(after))
  {
    GoesOnWaiting(ear, before);
    LastOwn(ear, line, after);
    HearSplits(ear, before, [line] + after);
    Chain(ReportAll(ear, before), [Heard(line, ear.id, Terminal)], Idles(ShownOf(after)));
  }

  lemma LastOwn(ear: Listener, line: string, after: seq<string>)
    requires ear.waiting && Shown(line) && EndsCommand(ear.flags, line)
    ensures !HearAll(ear, [line] + after).waiting
    ensures ReportAll(ear, [line] + after) == [Heard(line, ear.id, Terminal)] + Idles(ShownOf(after))
  {
    ShownIsReported(line);
    IdleHears(Hear(ear, line), after);
    assert ([line] + after)[1..] == after;
  }

  lemma {:induction false} EndAtPrefix(flags: seq<string>, lines: seq<string>)
    ensures EndAt(flags, lines[..EndAt(flags, lines)]) == EndAt(flags, lines)
  {
    var k := EndAt(flags, lines);
    if k > 0 {
      assert lines[..k][1..] == lines[1..][..k - 1];
      EndAtPrefix(flags, lines[1..]);
    }
  }

  // ---------------------------------------------------------------- the prompt

  /** The tail is a prompt: `>` is the first flag that it matches. */
  predicate Prompts(flags: seq<string>, rest: string) {
    exists i | 0 <= i < |flags| ::
      flags[i] == ">" && FlagMatches(flags[i], rest) && forall j | 0 <= j < i :: !FlagMatches(flags[j], rest)
  }

  /** A read whose lines leave the command waiting and whose tail is the prompt ends it, and takes the prompt out
      of the buffer; what comes then is nobody's. */
  lemma PromptEnds(r: Reader, chunk: string, lines: seq<string>)
    requires r.ear.waiting && |r.raw| + |chunk| < 32768
    requires var text := CStr(r.raw + chunk);
             EndAt(r.ear.flags, Lines(text)) == |Lines(text)| && Tail(text) != "" && Prompts(r.ear.flags, Tail(text))
    ensures var next := Read(r, chunk);
            next.raw == "" && !next.ear.waiting && ReportAll(next.ear, lines) == Idles(ShownOf(lines))
  {
    GoesOnWaiting(r.ear, Lines(CStr(r.raw + chunk)));
    IdleHears(Read(r, chunk).ear, lines);
  }

  /** And nothing but a terminal line or such a prompt ends a wait. */
  lemma OnlyThese(r: Reader, chunk: string)
    requires r.ear.waiting
    requires var text := CStr(r.raw + chunk);
             EndAt(r.ear.flags, Lines(text)) == |Lines(text)| && !(Tail(text) != "" && Prompts(r.ear.flags, Tail(text)))
    ensures Read(r, chunk).ear == r.ear
  {
    GoesOnWaiting(r.ear, Lines(CStr(r.raw + chunk)));
  }

  // ---------------------------------------------------------------- a full buffer

  /** A read that does not fit loses itself and what was buffered, and reports nothing; the command goes on waiting,
      and the stream behind it is framed as by a new reader. */
  lemma OverflowForgets(r: Reader, chunk: string, more: seq<string>)
    requires |r.raw| + |chunk| >= 32768
    ensures Events(r, chunk) == [] && Read(r, chunk) == Reader("", r.ear)
    ensures EventsAll(r, [chunk] + more) == EventsAll(Reader("", r.ear), more)
    ensures ReadAll(r, [chunk] + more) == ReadAll(Reader("", r.ear), more)
  {
    assert ([chunk] + more)[1..] == more;
  }

  // ---------------------------------------------------------------- what ends a command

  predicate AllBlank(s: string) {
    forall i | 0 <= i < |s| :: s[i] == ' ' || s[i] == '\t' || s[i] == '\r' || s[i] == '\n'
  }

  /** A word: it is there and neither begins nor ends with a blank. */
  predicate Word(s: string) { s != "" && !IsBlank(s[0]) && !IsBlank(s[|s| - 1]) }

  lemma {:induction false} TrimLeftIs(a: string, t: string)
    requires AllBlank(a) && (t == "" || !IsBlank(t[0]))
    ensures TrimLeft(a + t) == t
  {
    if a == "" {
      assert a + t == t;
    } else {
      assert (a + t)[1..] == a[1..] + t;
      TrimLeftIs(a[1..], t);
    }
  }

  lemma {:induction false} TrimRightIs(t: string, b: string)
    requires AllBlank(b) && (t == "" || !IsBlank(t[|t| - 1]))
    ensures TrimRight(t + b) == t
  {
    if b == "" {
      assert t + b == t;
    } else {
      assert (t + b)[..|t + b| - 1] == t + b[..|b| - 1];
      TrimRightIs(t, b[..|b| - 1]);
    }
  }

  lemma {:induction false} LeftBlanks(s: string) returns (a: string, t: string)
    ensures s == a + t && AllBlank(a) && t == TrimLeft(s) && (t == "" || !IsBlank(t[0]))
  {
    if s != "" && IsBlank(s[0]) {
      a, t := LeftBlanks(s[1..]);
      a := [s[0]] + a;
    } else {
      a, t := "", s;
    }
  }

  lemma {:induction false} RightBlanks(s: string) returns (t: string, b: string)
    ensures s == t + b && AllBlank(b) && t == TrimRight(s) && (t == "" || !IsBlank(t[|t| - 1]))
  {
    if s != "" && IsBlank(s[|s| - 1]) {
      t, b := RightBlanks(s[..|s| - 1]);
      b := b + [s[|s| - 1]];
    } else {
      t, b := s, "";
    }
  }

  /** The flag stands at the beginning of the line, blanks apart, and a blank or nothing but blanks follows. */
  ghost predicate Shows(flag: string, line: string) {
    exists a, b :: ShowsAt(flag, line, a, b)
  }

  predicate ShowsAt(flag: string, line: string, a: string, b: string) {
    line == a + flag + b && AllBlank(a) && (AllBlank(b) || b[0] == ' ' || b[0] == '\t')
  }

  lemma MatchShows(flag: string, line: string)
    requires Word(flag) && |line| <= 1023 && FlagMatches(flag, line)
    ensures Shows(flag, line)
  {
    var a, t := LeftBlanks(line);
    var u, c := RightBlanks(t);
    assert u == Trim(line);
    ShowsCut(flag, line, a, u, c);
  }

  lemma ShowsCut(flag: string, line: string, a: string, u: string, c: string)
    requires line == a + (u + c) && AllBlank(a) && AllBlank(c) && flag <= u
    requires |u| > |flag| ==> u[|flag|] == ' ' || u[|flag|] == '\t'
    ensures Shows(flag, line)
  {
    var rest := u[|flag|..];
    assert u == flag + rest;
    Regrouped(line, a, flag, rest, c);
    assert ShowsAt(flag, line, a, rest + c);
  }

  lemma Regrouped(line: string, a: string, flag: string, rest: string, c: string)
    requires line == a + (flag + rest + c)
    ensures line == a + flag + (rest + c)
  {
  }

  lemma NotBlank(u: string, c: string)
    requires AllBlank(c) && !AllBlank(u + c)
    ensures u != ""
  {
    assert "" + c == c;
  }

  lemma ShowsMatch(flag: string, line: string, a: string, b: string)
    requires Word(flag) && |line| <= 1023 && ShowsAt(flag, line, a, b)
    ensures FlagMatches(flag, line)
  {
    var t := flag + b;
    assert line == a + t;
    TrimLeftIs(a, t);
    if AllBlank(b) {
      TrimRightIs(flag, b);
    } else {
      var u, c := RightBlanks(b);
      NotBlank(u, c);
      assert t == (flag + u) + c && (flag + u)[|flag + u| - 1] == u[|u| - 1] && u[0] == b[0];
      TrimRightIs(flag + u, c);
    }
  }

  /** A line ends a command with this flag if and only if, blanks apart, it is the flag, or begins with the flag
      and a space or a tab. */
  lemma FlagMatchesExactly(flag: string, line: string)
    requires Word(flag) && |line| <= 1023
    ensures FlagMatches(flag, line) <==> Shows(flag, line)
  {
    if FlagMatches(flag, line) { MatchShows(flag, line); }
    if a, b :| ShowsAt(flag, line, a, b) { ShowsMatch(flag, line, a, b); }
  }

  /** A line ends the command if and only if it shows one of its flags, whichever that is. */
  lemma EndsExactly(flags: seq<string>, line: string)
    requires (forall f | f in flags :: Word(f)) && |line| <= 1023
    ensures EndsCommand(flags, line) <==> exists f :: f in flags && Shows(f, line)
  {
    forall f | f in flags ensures FlagMatches(f, line) <==> Shows(f, line) {
      FlagMatchesExactly(f, line);
    }
  }

  // ---------------------------------------------------------------- where lines are cut

  predicate NoCrlf(t: string) { forall i | 0 <= i < |t| - 1 :: !(t[i] == '\r' && t[i + 1] == '\n') }

  function Whole(lines: seq<string>): string {
    if lines == [] then "" else lines[0] + "\r\n" + Whole(lines[1..])
  }

  lemma {:induction false} FirstCrlf(s: string)
    ensures var j := CrlfAt(s);
      NoCrlf(s[..j]) && if j == |s| then NoCrlf(s) else s[j..j + 2] == "\r\n"
  {
    var j := CrlfAt(s);
    if |s| >= 2 && !(s[0] == '\r' && s[1] == '\n') {
      FirstCrlf(s[1..]);
      assert s[..j] == [s[0]] + s[1..][..j - 1];
    }
  }

  predicate Cut(s: string, lines: seq<string>, tail: string) {
    s == Whole(lines) + tail && NoCrlf(tail) && forall l | l in lines :: NoCrlf(l)
  }

  lemma CutCons(s: string, line: string, rest: string, lines: seq<string>, tail: string)
    requires Cut(rest, lines, tail) && NoCrlf(line) && s == line + "\r\n" + rest
    ensures Cut(s, [line] + lines, tail)
  {
    assert ([line] + lines)[1..] == lines;
  }

  /** A text is cut at every CRLF: its lines, each with its CRLF, and its tail are the text, and neither a line nor
      the tail holds one. */
  lemma {:induction false} CutAtEvery(s: string)
    ensures Cut(s, Lines(s), Tail(s))
    decreases |s|
  {
    FirstCrlf(s);
    var j := CrlfAt(s);
    if j < |s| {
      var rest := s[j + 2..];
      CutAtEvery(rest);
      assert s == s[..j] + s[j..j + 2] + rest;
      CutCons(s, s[..j], rest, Lines(rest), Tail(rest));
    } else {
      assert Lines(s) == [] && "" + s == s;
    }
  }
}

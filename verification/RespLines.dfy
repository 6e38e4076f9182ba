/**
 * How a value is found in a response, line by line (fm160d/src/atq.c:617-653), and what the cell lock line is read
 * as (fm160d/src/cmds.c:1154-1197).
 */
module RespLines {
  import opened CellLockModel
  import opened Csv
  import opened Numerals
  import opened Options

  // ---- the lines of a response ----

  function LineLength(s: string): (n: nat)
    ensures n <= |s| && (n < |s| ==> s[n] == '\n') && '\n' !in s[..n]
  {
    if s == "" || s[0] == '\n' then 0
    else
      var n := LineLength(s[1..]);
      assert s[..n + 1] == [s[0]] + s[1..][..n];
      n + 1
  }

  // The line begins with the word, and the word ends there.
  predicate Begins(line: string, word: string) {
    && |line| >= |word| && line[..|word|] == word
    && (|line| == |word| || line[|word|] == ':' || line[|word|] == ' ' || line[|word|] == '\t' || line[|word|] == '\r')
  }

  // What stands behind the word: without the colons and blanks before it, up to a carriage return.
  function ValueOf(rest: string): string {
    if rest != "" && (rest[0] == ':' || rest[0] == ' ' || rest[0] == '\t') then ValueOf(rest[1..])
    else UntilReturn(rest)
  }

  function UntilReturn(s: string): string {
    if s == "" || s[0] == '\r' then "" else [s[0]] + UntilReturn(s[1..])
  }

  // Line by line, the value in the first that begins with the word.
  function FirstValue(s: string, word: string): Option<string>
    decreases |s|
  {
    var n := LineLength(s);
    if Begins(s[..n], word) then Some(ValueOf(s[..n][|word|..]))
    else if n == |s| then None
    else FirstValue(s[n + 1..], word)
  }

  // ---- the scan ----

  predicate AtLineStart(resp: string, i: nat) { i <= |resp| && (i == 0 || resp[i - 1] == '\n') }

  lemma WordInLine(s: string, word: string)
    requires '\n' !in word && |word| <= |s| && s[..|word|] == word
    ensures |word| <= LineLength(s) && s[..LineLength(s)][..|word|] == word
  {
    assert forall k :: 0 <= k < |word| ==> s[k] == word[k];
  }

  lemma LineAtStart(resp: string, word: string, i: nat)
    requires AtLineStart(resp, i) && '\n' !in word
    ensures LineAt(resp, word, i) <==> Begins(resp[i..][..LineLength(resp[i..])], word)
  {
    var s, n := resp[i..], LineLength(resp[i..]);
    var line := s[..n];
    if LineAt(resp, word, i) {
      assert resp[i..i + |word|] == s[..|word|];
      WordInLine(s, word);
      if |word| < n { assert line[|word|] != '\n'; }
    }
    if Begins(line, word) {
      assert resp[i..i + |word|] == line[..|word|];
    }
  }

  lemma {:induction false} SkipsLine(resp: string, word: string, i: nat, j: nat)
    requires AtLineStart(resp, i) && i <= j <= i + LineLength(resp[i..]) && (j == i ==> !LineAt(resp, word, i))
    ensures var next := i + LineLength(resp[i..]) + 1; FirstLine(resp, word, j) == FirstLine(resp, word, next)
    decreases |resp| + 1 - j
  {
    var n := LineLength(resp[i..]);
    if j > i {
      assert resp[i..][..n][j - 1 - i] == resp[j - 1];
    }
    if j < i + n { SkipsLine(resp, word, i, j + 1); }
  }

  lemma {:induction false} ValueInLine(x: string, more: string)
    requires '\n' !in x && (more == "" || more[0] == '\n')
    ensures UntilEol(SkipGap(x + more)) == ValueOf(x)
  {
    if x == "" {
      assert x + more == more;
    } else {
      assert (x + more)[1..] == x[1..] + more;
      if IsGap(x[0]) { ValueInLine(x[1..], more); } else { EolInLine(x, more); }
    }
  }

  lemma {:induction false} EolInLine(x: string, more: string)
    requires '\n' !in x && (more == "" || more[0] == '\n')
    ensures UntilEol(x + more) == UntilReturn(x)
  {
    if x == "" {
      assert x + more == more;
    } else {
      assert (x + more)[1..] == x[1..] + more && '\n' !in x[1..];
      EolInLine(x[1..], more);
    }
  }

  lemma ValueAtStart(resp: string, word: string, i: nat)
    requires AtLineStart(resp, i) && LineAt(resp, word, i) && '\n' !in word
    ensures ValueAt(resp, word, i) == ValueOf(resp[i..][..LineLength(resp[i..])][|word|..])
  {
    LineAtStart(resp, word, i);
    var s, n := resp[i..], LineLength(resp[i..]);
    var x, more := s[..n][|word|..], s[n..];
    assert resp[i + |word|..] == x + more;
    ValueInLine(x, more);
  }

  function ValueFrom(resp: string, word: string, i: nat): Option<string>
    requires i <= |resp| + 1
  {
    var j := FirstLine(resp, word, i);
    if j <= |resp| then Some(ValueAt(resp, word, j)) else None
  }

  lemma Here(resp: string, word: string, i: nat)
    requires AtLineStart(resp, i) && LineAt(resp, word, i) && '\n' !in word
    ensures ValueFrom(resp, word, i) == FirstValue(resp[i..], word)
  {
    LineAtStart(resp, word, i);
    ValueAtStart(resp, word, i);
  }

  lemma OtherLine(s: string, word: string)
    requires !Begins(s[..LineLength(s)], word)
    ensures var n := LineLength(s);
      FirstValue(s, word) == if n == |s| then None else FirstValue(s[n + 1..], word)
  {
  }

  lemma NotHere(resp: string, word: string, i: nat) returns (next: nat)
    requires AtLineStart(resp, i) && !LineAt(resp, word, i) && '\n' !in word
    ensures i < next <= |resp| + 1 && FirstLine(resp, word, i) == FirstLine(resp, word, next)
    ensures if next > |resp| then FirstValue(resp[i..], word) == None
            else AtLineStart(resp, next) && FirstValue(resp[i..], word) == FirstValue(resp[next..], word)
  {
    var s, n := resp[i..], LineLength(resp[i..]);
    next := i + n + 1;
    LineAtStart(resp, word, i);
    OtherLine(s, word);
    SkipsLine(resp, word, i, i);
    if n < |s| {
      assert s[n] == resp[i + n];
      assert s[n + 1..] == resp[next..];
    }
  }

  lemma {:induction false} ScanFinds(resp: string, word: string, i: nat)
    requires AtLineStart(resp, i) && '\n' !in word
    ensures ValueFrom(resp, word, i) == FirstValue(resp[i..], word)
    decreases |resp| - i
  {
    if LineAt(resp, word, i) {
      Here(resp, word, i);
    } else {
      var next := NotHere(resp, word, i);
      if next <= |resp| { ScanFinds(resp, word, next); }
    }
  }

  // The value found is that of the first line which begins with the word as a whole token, cut to the buffer.
  lemma FoundInLines(resp: string, word: string, size: nat)
    requires size > 0 && '\n' !in word
    ensures RespFind(resp, word, size)
         == match FirstValue(resp, word)
            case None => None
            case Some(v) => Some(if |v| < size then v else v[..size - 1])
  {
    assert resp[0..] == resp;
    ScanFinds(resp, word, 0);
  }

  // ---- the cell lock line ----

  // Any line of numbers is read in order, each field that is missing as its own "not said".
  lemma NumbersRead(ns: seq<int>)
    requires Natural(ns) && ns != []
    ensures var r := ParseLine(Join(ns));
      && (r.enabled <==> ns[0] == 1)
      && r.rat == (if |ns| > 1 then ns[1] else -1) && r.kind == (if |ns| > 2 then ns[2] else -1)
      && r.earfcn == (if |ns| > 3 then ns[3] else 0) && r.pci == (if |ns| > 4 then Some(ns[4]) else None)
      && r.scs == (if |ns| > 5 then Some(ns[5]) else None) && r.nrband == (if |ns| > 6 then Some(ns[6]) else None)
  {
    FieldOfJoin(ns, 0, 0);
    FieldOfJoin(ns, 1, -1);
    FieldOfJoin(ns, 2, -1);
    FieldOfJoin(ns, 3, 0);
    FieldOfJoin(ns, 4, 0);
    FieldOfJoin(ns, 5, 0);
    FieldOfJoin(ns, 6, 0);
  }

  // A lock that was written comes back with the cell where one was named, and with the subcarrier spacing and the
  // band only behind it, on NR.
  lemma WrittenComesBack(l: Lock)
    requires l.mode == 1 && 0 <= l.rat <= 2 && 0 <= l.kind <= 1
    ensures var r, x := ParseLine(Argument(l)), l.extras;
      && Accepted(l) && r.enabled && r.rat == l.rat && r.kind == l.kind && r.earfcn == l.earfcn
      && r.pci == (if x.pci >= 0 then Some(x.pci) else None)
      && r.scs == (if x.pci >= 0 && x.scs >= 0 && l.rat == 1 then Some(x.scs) else None)
      && r.nrband == (if x.pci >= 0 && x.scs >= 0 && x.nrband >= 0 && l.rat == 1 then Some(x.nrband) else None)
  {
    ParseArgument(l);
  }

  // A line without a value reads as not locked, with nothing said.
  lemma EmptyReads()
    ensures ParseLine("") == Reading(false, -1, -1, 0, None, None, None)
  {
    assert Strtoull0("") == 0;
  }

  // A lock is taken off, or put on for a known access technology and a known kind of cell; all else is refused.
  lemma AcceptedExactly(l: Lock)
    ensures Accepted(l) <==> l.mode == 0 || (l.mode == 1 && l.rat in {0, 1, 2} && l.kind in {0, 1})
    ensures l.mode == 0 ==> Argument(l) == "0"
  {
    assert Numbers(l) == [0] ==> Printed(Numbers(l)) == ["0"] by { assert PrintInt(0) == "0"; }
  }

  // A reading is kept as it was exactly where no line begins with the name, or the first such line is the list of
  // ranges that the test command answers; else it is read from the first 511 characters of that line's value.
  lemma ReadFrom(resp: string)
    ensures ParseReply(resp) ==
      match FirstValue(resp, "+GTCELLLOCK")
      case None => None
      case Some(v) =>
        if v != "" && v[0] == '(' then None else Some(ParseLine(if |v| < 512 then v else v[..511]))
  {
    FoundInLines(resp, PREFIX, LINE_MAX);
  }
}

/**
 * The cell lock command and its read-back (fm160d/src/cmds.c:25-58, 1154-1197, 1543-1591), and how a
 * line is found in a response (fm160d/src/atq.c:617-653).
 */
module CellLockModel {
  import opened Csv
  import opened Numerals
  import opened Options

  datatype Extras = Extras(pci: int, scs: int, nrband: int)
  datatype Lock = Lock(mode: int, rat: int, kind: int, earfcn: nat, extras: Extras)
  // What the daemon keeps of a read-back; an optional field is None where the modem did not say.
  datatype Reading = Reading(enabled: bool, rat: int, kind: int, earfcn: nat,
                             pci: Option<int>, scs: Option<int>, nrband: Option<int>)

  const COMMAND: string := "AT+GTCELLLOCK="
  const PREFIX: string := "+GTCELLLOCK"
  const LINE_MAX := 512
  const INT_MAX := 0x7FFF_FFFF
  const ULL_LIMIT := 0x1_0000_0000_0000_0000

  const NR := 1

  // ---- writing ----

  predicate Accepted(l: Lock) {
    l.mode == 0 || (l.mode == 1 && 0 <= l.rat <= 2 && 0 <= l.kind <= 1)
  }

  // The optional fields nest: each is there only where the one before it is, and the last two only for NR.
  predicate HasPci(l: Lock) { l.mode == 1 && l.extras.pci >= 0 }

  predicate HasScs(l: Lock) { HasPci(l) && l.rat == NR && l.extras.scs >= 0 }

  predicate HasNrband(l: Lock) { HasScs(l) && l.extras.nrband >= 0 }

  function Numbers(l: Lock): seq<int> {
    (if l.mode == 0 then [0] else [1, l.rat, l.kind, l.earfcn])
      + (if HasPci(l) then [l.extras.pci] else [])
      + (if HasScs(l) then [l.extras.scs] else [])
      + (if HasNrband(l) then [l.extras.nrband] else [])
  }

  function Argument(l: Lock): string { Join(Numbers(l)) }

  // ---- finding the line ----

  predicate IsGap(c: char) { c == ':' || c == ' ' || c == '\t' }

  predicate IsEol(c: char) { c == '\r' || c == '\n' }

  predicate Occurs(s: string, word: string, i: nat) { i + |word| <= |s| && s[i..i + |word|] == word }

  // At i the prefix starts a line and is not the beginning of a longer token.
  predicate LineAt(resp: string, prefix: string, i: nat) {
    && Occurs(resp, prefix, i)
    && (i == 0 || resp[i - 1] == '\n')
    && (i + |prefix| == |resp| || IsGap(resp[i + |prefix|]) || IsEol(resp[i + |prefix|]))
  }

  function SkipGap(s: string): string {
    if s != "" && IsGap(s[0]) then SkipGap(s[1..]) else s
  }

  function UntilEol(s: string): string {
    if s == "" || IsEol(s[0]) then "" else [s[0]] + UntilEol(s[1..])
  }

  function Cut(s: string, size: nat): string
    requires size > 0
  {
    if |s| >= size then s[..size - 1] else s
  }

  function ValueAt(resp: string, prefix: string, i: nat): string
    requires i + |prefix| <= |resp|
  {
    UntilEol(SkipGap(resp[i + |prefix|..]))
  }

  // The value of the first such line.
  function RespFind(resp: string, prefix: string, size: nat): Option<string>
    requires size > 0
  {
    var i := FirstLine(resp, prefix, 0);
    if i <= |resp| then Some(Cut(ValueAt(resp, prefix, i), size)) else None
  }

  function FirstLine(resp: string, prefix: string, i: nat): (j: nat)
    requires i <= |resp| + 1
    ensures i <= j <= |resp| + 1 && (j <= |resp| ==> LineAt(resp, prefix, j))
    ensures forall k :: i <= k < j ==> !LineAt(resp, prefix, k)
    decreases |resp| + 1 - i
  {
    if i > |resp| || LineAt(resp, prefix, i) then i else FirstLine(resp, prefix, i + 1)
  }

  // ---- reading ----

  function Said(value: int): Option<int> { if value == -1 then None else Some(value) }

  function OptionalField(line: string, index: nat): Option<int> {
    Said(if CsvAt(line, index) != "" then CsvInt(line, index, 0) else -1)
  }

  function ParseLine(line: string): Reading {
    Reading(CsvInt(line, 0, 0) == 1, CsvInt(line, 1, -1), CsvInt(line, 2, -1), Strtoull0(CsvAt(line, 3)),
            OptionalField(line, 4), OptionalField(line, 5), OptionalField(line, 6))
  }

  // None where the reading is left as it was: no such line, or the list of ranges.
  function ParseReply(resp: string): Option<Reading> {
    match RespFind(resp, PREFIX, LINE_MAX)
    case None => None
    case Some(line) => if line != "" && line[0] == '(' then None else Some(ParseLine(line))
  }

  // What a lock reads back as.
  function Expected(l: Lock): Reading {
    if l.mode == 0 then Reading(false, -1, -1, 0, None, None, None)
    else Reading(true, l.rat, l.kind, l.earfcn,
                 if HasPci(l) then Some(l.extras.pci) else None,
                 if HasScs(l) then Some(l.extras.scs) else None,
                 if HasNrband(l) then Some(l.extras.nrband) else None)
  }

  // The lock that a reading describes, absent fields marked as the writer wants them.
  function AsLock(r: Reading): Lock {
    Lock(if r.enabled then 1 else 0, r.rat, r.kind, r.earfcn,
         Extras(if r.pci.Some? then r.pci.value else -1, if r.scs.Some? then r.scs.value else -1,
                if r.nrband.Some? then r.nrband.value else -1))
  }

  // ---- round trips ----

  lemma NumbersNatural(l: Lock)
    requires Accepted(l)
    ensures Natural(Numbers(l)) && Numbers(l) != []
  {
  }

  // Parsing the argument text of any accepted command gives back its mode, RAT, type and frequency, and
  // exactly the optional fields that were written.
  lemma ParseArgument(l: Lock)
    requires Accepted(l)
    ensures ParseLine(Argument(l)) == Expected(l)
  {
    var ns := Numbers(l);
    NumbersNatural(l);
    FieldOfJoin(ns, 0, 0);
    FieldOfJoin(ns, 1, -1);
    FieldOfJoin(ns, 2, -1);
    FieldOfJoin(ns, 3, 0);
    FieldOfJoin(ns, 4, 0);
    FieldOfJoin(ns, 5, 0);
    FieldOfJoin(ns, 6, 0);
    if l.mode == 0 {
      assert Strtoull0("") == 0;
    }
  }

  // Writing what was read back is writing the same command again.
  lemma WriteBack(l: Lock)
    requires Accepted(l)
    ensures Accepted(AsLock(Expected(l))) && Argument(AsLock(Expected(l))) == Argument(l)
  {
  }

  // Two accepted commands have the same text only if they mean the same.
  lemma SameText(l: Lock, m: Lock)
    requires Accepted(l) && Accepted(m) && Argument(l) == Argument(m)
    ensures Expected(l) == Expected(m)
  {
    ParseArgument(l);
    ParseArgument(m);
  }

  // ---- the read-back in a response ----

  // The values fit the C types they come in.
  predicate Sized(l: Lock) {
    l.earfcn < ULL_LIMIT && l.extras.pci <= INT_MAX && l.extras.scs <= INT_MAX && l.extras.nrband <= INT_MAX
  }

  lemma Pow10()
    ensures Pow(10, 20) == 100000000000000000000
  {
    assert Pow(10, 4) == 10000 by {
      assert Pow(10, 0) == 1;
      assert Pow(10, 1) == 10;
      assert Pow(10, 2) == 100;
      assert Pow(10, 3) == 1000;
    }
    assert Pow(10, 8) == 100000000 by {
      assert Pow(10, 5) == 100000;
      assert Pow(10, 6) == 1000000;
      assert Pow(10, 7) == 10000000;
    }
    assert Pow(10, 12) == 1000000000000 by {
      assert Pow(10, 9) == 1000000000;
      assert Pow(10, 10) == 10000000000;
      assert Pow(10, 11) == 100000000000;
    }
    assert Pow(10, 16) == 10000000000000000 by {
      assert Pow(10, 13) == 10000000000000;
      assert Pow(10, 14) == 100000000000000;
      assert Pow(10, 15) == 1000000000000000;
    }
    assert Pow(10, 17) == 100000000000000000;
    assert Pow(10, 18) == 1000000000000000000;
    assert Pow(10, 19) == 10000000000000000000;
  }

  predicate Plain(c: char) { c == ',' || '0' <= c <= '9' }

  lemma {:induction false} JoinPlain(ns: seq<int>)
    requires Natural(ns) && forall i :: 0 <= i < |ns| ==> ns[i] < ULL_LIMIT
    ensures forall k :: 0 <= k < |Join(ns)| ==> Plain(Join(ns)[k])
    ensures |Join(ns)| <= 21 * |ns|
  {
    if ns != [] {
      var p, j := PrintInt(ns[0]), Join(ns);
      PrintPlain(ns[0]);
      JoinPlain(ns[1..]);
      JoinSplits(ns);
      if |ns| > 1 {
        assert j == p + "," + Join(ns[1..]);
      }
    }
  }

  lemma PrintPlain(n: nat)
    requires n < ULL_LIMIT
    ensures |Print(n, 10)| <= 20
    ensures forall k :: 0 <= k < |Print(n, 10)| ==> Plain(Print(n, 10)[k])
  {
    Pow10();
    PrintLength(n, 10, 20);
    PrintReads(n, 10);
    forall k | 0 <= k < |Print(n, 10)| ensures Plain(Print(n, 10)[k]) {
      assert IsDigit(Print(n, 10)[k], 10);
    }
  }

  lemma {:induction false} GapSkipped(gap: string, t: string)
    requires forall k :: 0 <= k < |gap| ==> IsGap(gap[k])
    requires t != "" && !IsGap(t[0])
    ensures SkipGap(gap + t) == t
  {
    if gap == "" {
      assert gap + t == t;
    } else {
      assert (gap + t)[1..] == gap[1..] + t;
      GapSkipped(gap[1..], t);
    }
  }

  lemma {:induction false} EolStops(arg: string, after: string)
    requires forall k :: 0 <= k < |arg| ==> Plain(arg[k])
    requires after == "" || IsEol(after[0])
    ensures UntilEol(arg + after) == arg
  {
    if arg == "" {
      assert arg + after == after;
    } else {
      assert (arg + after)[1..] == arg[1..] + after;
      assert Plain(arg[0]);
      EolStops(arg[1..], after);
    }
  }

  // A response whose first line of that name carries the lock.
  predicate Carries(resp: string, before: string, gap: string, l: Lock, after: string) {
    && resp == before + PREFIX + gap + Argument(l) + after
    && (before == "" || before[|before| - 1] == '\n')
    && gap != "" && (forall k :: 0 <= k < |gap| ==> IsGap(gap[k]))
    && (after == "" || IsEol(after[0]))
    && (forall i :: 0 <= i < |before| ==> !LineAt(resp, PREFIX, i))
  }

  lemma ArgumentPlain(l: Lock)
    requires Accepted(l) && Sized(l)
    ensures 0 < |Argument(l)| < LINE_MAX
    ensures forall k :: 0 <= k < |Argument(l)| ==> Plain(Argument(l)[k])
  {
    NumbersNatural(l);
    JoinPlain(Numbers(l));
    JoinStarts(Numbers(l));
  }

  lemma LineFound(resp: string, before: string, gap: string, l: Lock, after: string)
    requires Accepted(l) && Sized(l) && Carries(resp, before, gap, l, after)
    ensures RespFind(resp, PREFIX, LINE_MAX) == Some(Argument(l))
  {
    var arg := Argument(l);
    ArgumentPlain(l);
    PrefixAt(resp, before, gap, arg + after);
    assert resp == before + PREFIX + gap + (arg + after);
    assert FirstLine(resp, PREFIX, 0) == |before|;
    assert Plain(arg[0]);
    GapSkipped(gap, arg + after);
    EolStops(arg, after);
  }

  lemma PrefixAt(resp: string, before: string, gap: string, rest: string)
    requires resp == before + PREFIX + gap + rest && (before == "" || before[|before| - 1] == '\n')
    requires gap != "" && IsGap(gap[0])
    ensures LineAt(resp, PREFIX, |before|) && resp[|before| + |PREFIX|..] == gap + rest
  {
    assert resp == before + (PREFIX + (gap + rest));
    assert resp[|before| + |PREFIX|] == gap[0];
  }

  // Whatever lines come before it and after it, the read-back of an accepted command is read as the lock
  // that was written.
  lemma ReadBack(resp: string, before: string, gap: string, l: Lock, after: string)
    requires Accepted(l) && Sized(l) && Carries(resp, before, gap, l, after)
    ensures ParseReply(resp) == Some(Expected(l))
  {
    LineFound(resp, before, gap, l, after);
    ArgumentPlain(l);
    assert Plain(Argument(l)[0]);
    ParseArgument(l);
  }

  // And what was read, written as a lock again, is the same command.
  lemma Rewritten(resp: string, before: string, gap: string, l: Lock, after: string)
    requires Accepted(l) && Sized(l) && Carries(resp, before, gap, l, after)
    ensures var r := ParseReply(resp);
      r.Some? && Accepted(AsLock(r.value)) && Argument(AsLock(r.value)) == Argument(l)
  {
    ReadBack(resp, before, gap, l, after);
    WriteBack(l);
  }
}

/** The cell lock builder and parser as they work on buffers (fm160d/src/cmds.c:25-58, 1154-1197, 1543-1591
    and fm160d/src/atq.c:617-653). */
module CellLockCode {
  import opened CellLockModel
  import opened Csv
  import opened Numerals
  import opened Options

  // ---- writing ----

  // What snprintf leaves in the `used..` part of a buffer: the text and its terminator where they fit,
  // as much of it as fits where they do not. It returns the length of the whole text.
  method Snprintf(out: array<char>, used: nat, text: string) returns (n: nat)
    requires used <= out.Length
    modifies out
    ensures n == |text|
    ensures out[..used] == old(out[..used])
    ensures n < out.Length - used ==> out[used..used + n] == text && out[used + n] == '\0'
  {
    n := |text|;
    if used < out.Length {
      var i := 0;
      while i < n && used + i + 1 < out.Length
        invariant i <= n && used + i < out.Length
        invariant out[..used] == old(out[..used]) && out[used..used + i] == text[..i]
      {
        out[used + i] := text[i];
        i := i + 1;
      }
      out[used + i] := '\0';
    }
  }

  // The buffer holds this text as a C string.
  ghost predicate HoldsText(b: seq<char>, text: string) {
    |text| < |b| && b[..|text|] == text && b[|text|] == '\0'
  }

  lemma Appended(was: seq<char>, b: seq<char>, text: string, more: string)
    requires |was| == |b| && HoldsText(was, text) && b[..|text|] == was[..|text|]
    requires |more| < |b| - |text| && b[|text|..|text| + |more|] == more && b[|text| + |more|] == '\0'
    ensures HoldsText(b, text + more)
  {
    assert b[..|text| + |more|] == b[..|text|] + b[|text|..|text| + |more|];
  }

  // One optional field behind the text so far: it is written, or the buffer is too small for it.
  method PutField(out: array<char>, used: nat, value: nat, ghost ns: seq<int>) returns (ok: bool, next: nat)
    requires ns != [] && HoldsText(out[..], COMMAND + Join(ns)) && used == |COMMAND + Join(ns)|
    modifies out
    ensures ok <==> |COMMAND + Join(ns + [value])| < out.Length
    ensures ok ==> HoldsText(out[..], COMMAND + Join(ns + [value])) && next == |COMMAND + Join(ns + [value])|
  {
    ghost var was, text, more := out[..], COMMAND + Join(ns), "," + Print(value, 10);
    CommandAppend(ns, value);
    var n := Snprintf(out, used, "," + Print(value, 10));
    next := used + n;
    ok := n < out.Length - used;
    if ok {
      assert out[..|text|] == was[..|text|];
      Appended(was, out[..], text, more);
    }
  }

  lemma CommandAppend(ns: seq<int>, value: nat)
    requires ns != []
    ensures COMMAND + Join(ns + [value]) == COMMAND + Join(ns) + ("," + Print(value, 10))
  {
    JoinAppend(ns, value);
  }

  lemma FourNumbers(a: nat, b: nat, c: nat, d: nat)
    ensures Join([a, b, c, d])
         == Print(a, 10) + "," + Print(b, 10) + "," + Print(c, 10) + "," + Print(d, 10)
  {
    JoinAppend([a], b);
    JoinAppend([a, b], c);
    JoinAppend([a, b, c], d);
    assert [a] + [b] == [a, b] && [a, b] + [c] == [a, b, c] && [a, b, c] + [d] == [a, b, c, d];
  }

  lemma JoinLonger(ns: seq<int>, n: int)
    requires ns != []
    ensures |Join(ns)| <= |Join(ns + [n])|
  {
    JoinAppend(ns, n);
  }

  function Four(l: Lock): seq<int> { [1, l.rat, l.kind, l.earfcn] }

  function Five(l: Lock): seq<int> { Four(l) + [l.extras.pci] }

  function Six(l: Lock): seq<int> { Five(l) + [l.extras.scs] }

  lemma Stages(l: Lock)
    requires l.mode == 1
    ensures Numbers(l) ==
            if !HasPci(l) then Four(l)
            else if !HasScs(l) then Five(l)
            else if !HasNrband(l) then Six(l)
            else Six(l) + [l.extras.nrband]
  {
  }

  // No stage is longer than the whole.
  lemma StagesGrow(l: Lock)
    requires l.mode == 1
    ensures |Join(Four(l))| <= |Argument(l)|
    ensures HasPci(l) ==> |Join(Five(l))| <= |Argument(l)|
    ensures HasScs(l) ==> |Join(Six(l))| <= |Argument(l)|
  {
    Stages(l);
    JoinLonger(Four(l), l.extras.pci);
    JoinLonger(Five(l), l.extras.scs);
    JoinLonger(Six(l), l.extras.nrband);
  }

  // fm160_celllock_command: 0 and the whole command in the buffer, or -1 where the lock is not allowed or
  // the buffer too small.
  method CellLockCommand(out: array<char>, l: Lock) returns (r: int)
    modifies out
    ensures r == if Accepted(l) && |COMMAND + Argument(l)| < out.Length then 0 else -1
    ensures r == 0 ==> HoldsText(out[..], COMMAND + Argument(l))
  {
    if l.mode != 0 && l.mode != 1 {
      return -1;
    }
    var n: nat;
    if l.mode == 0 {
      assert Argument(l) == "0" by { assert Join([0]) == PrintInt(0) == "0"; }
      n := Snprintf(out, 0, COMMAND + "0");
      return if n >= out.Length then -1 else 0;
    }
    if l.rat < 0 || l.rat > 2 || l.kind < 0 || l.kind > 1 {
      return -1;
    }
    FourNumbers(1, l.rat, l.kind, l.earfcn);
    var text := COMMAND + ("1" + "," + Print(l.rat, 10) + "," + Print(l.kind, 10) + "," + Print(l.earfcn, 10));
    assert text == COMMAND + Join(Four(l)) by { assert Print(1, 10) == "1"; }
    StagesGrow(l);
    n := Snprintf(out, 0, text);
    if n >= out.Length {
      return -1;
    }
    r := PutExtras(out, n, l);
  }

  method PutExtras(out: array<char>, used: nat, l: Lock) returns (r: int)
    requires l.mode == 1 && Accepted(l)
    requires HoldsText(out[..], COMMAND + Join(Four(l))) && used == |COMMAND + Join(Four(l))|
    modifies out
    ensures r == if |COMMAND + Argument(l)| < out.Length then 0 else -1
    ensures r == 0 ==> HoldsText(out[..], COMMAND + Argument(l))
  {
    Stages(l);
    StagesGrow(l);
    var ok, next := true, used;
    if l.extras.pci < 0 {
      return 0;
    }
    ok, next := PutField(out, next, l.extras.pci, Four(l));
    if !ok {
      return -1;
    }
    if l.rat != NR || l.extras.scs < 0 {
      return 0;
    }
    ok, next := PutField(out, next, l.extras.scs, Five(l));
    if !ok {
      return -1;
    }
    if l.extras.nrband < 0 {
      return 0;
    }
    ok, next := PutField(out, next, l.extras.nrband, Six(l));
    r := if ok then 0 else -1;
  }

  // ---- finding the line ----

  // strstr from `at` on: the first occurrence, or past the end where there is none.
  method StrStr(s: string, word: string, at: nat) returns (q: nat)
    requires at <= |s| + 1
    ensures at <= q <= |s| + 1
    ensures q <= |s| ==> Occurs(s, word, q)
    ensures forall k :: at <= k < q ==> !Occurs(s, word, k)
  {
    q := at;
    while q + |word| <= |s|
      invariant at <= q <= |s| + 1
      invariant forall k :: at <= k < q ==> !Occurs(s, word, k)
    {
      if s[q..q + |word|] == word {
        return;
      }
      q := q + 1;
    }
    q := |s| + 1;
  }

  lemma {:induction false} NoneBetween(resp: string, prefix: string, p: nat, q: nat)
    requires p <= q <= |resp| + 1 && forall k :: p <= k < q ==> !LineAt(resp, prefix, k)
    ensures FirstLine(resp, prefix, p) == FirstLine(resp, prefix, q)
    decreases q - p
  {
    if p < q { NoneBetween(resp, prefix, p + 1, q); }
  }

  // Of an occurrence: it is at the start of a line, and its token ends with it.
  predicate StartsLine(resp: string, prefix: string, p: nat)
    requires Occurs(resp, prefix, p)
    ensures StartsLine(resp, prefix, p) == LineAt(resp, prefix, p)
  {
    var v := p + |prefix|;
    !((p != 0 && resp[p - 1] != '\n') || (v < |resp| && !IsGap(resp[v]) && !IsEol(resp[v])))
  }

  // Past the separators, and up to the end of the line.
  method LineValue(s: string) returns (v: string)
    ensures v == UntilEol(SkipGap(s))
  {
    var t := s;
    while t != "" && (t[0] == ':' || t[0] == ' ' || t[0] == '\t')
      invariant SkipGap(t) == SkipGap(s)
      decreases |t|
    {
      t := t[1..];
    }
    var n := 0;
    while n < |t| && t[n] != '\r' && t[n] != '\n'
      invariant n <= |t| && UntilEol(t) == t[..n] + UntilEol(t[n..])
    {
      n := n + 1;
    }
    v := t[..n];
  }

  // fm160_resp_find.
  method RespFindLine(resp: string, prefix: string, size: nat) returns (line: Option<string>)
    requires prefix != "" && size > 0
    ensures line == RespFind(resp, prefix, size)
  {
    var p := StrStr(resp, prefix, 0);
    NoneBetween(resp, prefix, 0, p);
    while p <= |resp|
      invariant p <= |resp| + 1
      invariant p <= |resp| ==> Occurs(resp, prefix, p)
      invariant FirstLine(resp, prefix, 0) == FirstLine(resp, prefix, p)
      decreases |resp| + 1 - p
    {
      var v := p + |prefix|;
      var skip := !StartsLine(resp, prefix, p);
      if skip {
        var q := StrStr(resp, prefix, p + 1);
        NoneBetween(resp, prefix, p, q);
        p := q;
      } else {
        var value := LineValue(resp[v..]);
        return Some(if |value| >= size then value[..size - 1] else value);
      }
    }
    line := None;
  }

  // ---- fields ----

  method StrChr(s: string) returns (c: nat)
    ensures c == CommaAt(s)
  {
    c := 0;
    while c < |s| && s[c] != ','
      invariant c <= |s| && CommaAt(s) == c + CommaAt(s[c..])
    {
      c := c + 1;
    }
  }

  // The walk that csv_int and csv_at share.
  method Seek(s: string, index: nat) returns (t: Option<string>)
    ensures t == From(s, index)
  {
    var p, i := s, 0;
    while i < index
      invariant i <= index && From(s, index) == From(p, index - i)
    {
      var c := StrChr(p);
      if c == |p| {
        return None;
      }
      p := p[c + 1..];
      i := i + 1;
    }
    t := Some(p);
  }

  method ReadInt(s: string, index: nat, fallback: int) returns (n: int)
    ensures n == CsvInt(s, index, fallback)
  {
    var t := Seek(s, index);
    if t.None? {
      return fallback;
    }
    if t.value == "" {
      return fallback;
    }
    n := Atoi(t.value);
  }

  method ReadAt(s: string, index: nat) returns (r: string)
    ensures r == CsvAt(s, index)
  {
    var t := Seek(s, index);
    r := if t.None? then "" else t.value;
  }

  method ReadOptional(line: string, index: nat) returns (n: int)
    ensures Said(n) == OptionalField(line, index)
  {
    n := -1;
    var t := ReadAt(line, index);
    if t != "" {
      n := ReadInt(line, index, 0);
    }
  }

  // ---- the state ----

  class Settings {
    var valid: bool
    var reading: Reading
    var lastOk: nat

    constructor ()
      ensures !valid
    {
      valid := false;
      reading := Reading(false, 0, 0, 0, None, None, None);
      lastOk := 0;
    }

    method ParseCellLock(resp: string, now: nat)
      modifies this
      ensures ParseReply(resp).None? ==>
                valid == old(valid) && reading == old(reading) && lastOk == old(lastOk)
      ensures ParseReply(resp).Some? ==> valid && reading == ParseReply(resp).value && lastOk == now
    {
      var line := RespFindLine(resp, PREFIX, LINE_MAX);
      if line.None? {
        return;
      }
      if line.value != "" && line.value[0] == '(' {
        return;
      }
      var mode := ReadInt(line.value, 0, 0);
      var rat := ReadInt(line.value, 1, -1);
      var kind := ReadInt(line.value, 2, -1);
      var earfcn := ReadAt(line.value, 3);
      var pci := ReadOptional(line.value, 4);
      var scs := ReadOptional(line.value, 5);
      var nrband := ReadOptional(line.value, 6);
      reading := Reading(mode == 1, rat, kind, Strtoull0(earfcn), Said(pci), Said(scs), Said(nrband));
      valid := true;
      lastOk := now;
    }
  }
}

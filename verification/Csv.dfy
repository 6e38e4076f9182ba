/** Fields in one line, a comma between each two, and the helpers of fm160d/src/cmds.c:25-58 that read them. */
module Csv {
  import opened Numerals
  import opened Options

  function CommaAt(v: string): (c: nat)
    ensures c <= |v| && (c < |v| ==> v[c] == ',') && forall i | 0 <= i < c :: v[i] != ','
  {
    if v == "" || v[0] == ',' then 0 else 1 + CommaAt(v[1..])
  }

  function Link(fields: seq<string>): string {
    if fields == [] then "" else if |fields| == 1 then fields[0] else fields[0] + "," + Link(fields[1..])
  }

  function Printed(ns: seq<int>): seq<string> { seq(|ns|, i requires 0 <= i < |ns| => PrintInt(ns[i])) }

  function Join(ns: seq<int>): string { Link(Printed(ns)) }

  // ---------------------------------------------------------------- lines of fields

  predicate Clean(f: string) { forall i | 0 <= i < |f| :: f[i] != ',' }

  predicate AllClean(fields: seq<string>) { forall i | 0 <= i < |fields| :: Clean(fields[i]) }

  lemma {:induction false} CommaAfter(s: string, t: string)
    requires Clean(s) && (t == "" || t[0] == ',')
    ensures CommaAt(s + t) == |s|
  {
    if s == "" {
      assert s + t == t;
    } else {
      assert (s + t)[1..] == s[1..] + t;
      CommaAfter(s[1..], t);
    }
  }

  lemma {:induction false} LinkAppend(fields: seq<string>, f: string)
    requires fields != []
    ensures Link(fields + [f]) == Link(fields) + "," + f
  {
    assert (fields + [f])[1..] == fields[1..] + [f];
    if |fields| > 1 {
      LinkAppend(fields[1..], f);
    } else {
      assert fields[1..] + [f] == [f];
    }
  }

  lemma LinkSplits(fields: seq<string>)
    requires fields != [] && AllClean(fields)
    ensures CommaAt(Link(fields)) == |fields[0]| && Link(fields)[..|fields[0]|] == fields[0]
    ensures |fields| == 1 ==> Link(fields) == fields[0]
    ensures |fields| > 1 ==> |Link(fields)| > |fields[0]| && Link(fields)[|fields[0]| + 1..] == Link(fields[1..])
  {
    var f := fields[0];
    if |fields| == 1 {
      assert f + "" == f;
      CommaAfter(f, "");
    } else {
      FieldFirst(f, Link(fields[1..]));
    }
  }

  lemma FieldFirst(f: string, rest: string)
    requires Clean(f)
    ensures var s := f + "," + rest;
      CommaAt(s) == |f| && s[..|f|] == f && |s| > |f| && s[|f| + 1..] == rest
  {
    assert f + "," + rest == f + ("," + rest);
    CommaAfter(f, "," + rest);
  }

  // ---------------------------------------------------------------- reading a field

  /** What follows the first `index` commas, if there are that many. */
  function From(s: string, index: nat): Option<string> {
    if index == 0 then Some(s)
    else if CommaAt(s) == |s| then None
    else From(s[CommaAt(s) + 1..], index - 1)
  }

  function CsvInt(s: string, index: nat, fallback: int): int {
    match From(s, index)
    case None => fallback
    case Some(t) => if t == "" then fallback else Atoi(t)
  }

  function CsvAt(s: string, index: nat): string {
    match From(s, index)
    case None => ""
    case Some(t) => t
  }

  lemma {:induction false} FromLink(fields: seq<string>, index: nat)
    requires fields != [] && AllClean(fields)
    ensures From(Link(fields), index) == if index < |fields| then Some(Link(fields[index..])) else None
  {
    if index == 0 {
      assert fields[0..] == fields;
    } else {
      LinkSplits(fields);
      if |fields| > 1 {
        FromLink(fields[1..], index - 1);
        DropAgain(fields, index);
      }
    }
  }

  lemma DropAgain(fields: seq<string>, index: nat)
    requires 0 < index && fields != []
    ensures index < |fields| ==> fields[1..][index - 1..] == fields[index..]
  {
  }

  // ---------------------------------------------------------------- lines of numbers

  predicate Natural(ns: seq<int>) { forall i | 0 <= i < |ns| :: ns[i] >= 0 }

  lemma NoComma(n: nat)
    ensures Clean(PrintInt(n))
  {
    PrintReads(n, 10);
  }

  lemma PrintedClean(ns: seq<int>)
    requires Natural(ns)
    ensures AllClean(Printed(ns))
  {
    forall i | 0 <= i < |ns| ensures Clean(Printed(ns)[i]) {
      NoComma(ns[i]);
    }
  }

  lemma JoinAppend(ns: seq<int>, n: int)
    requires ns != []
    ensures Join(ns + [n]) == Join(ns) + "," + PrintInt(n)
  {
    assert Printed(ns + [n]) == Printed(ns) + [PrintInt(n)];
    LinkAppend(Printed(ns), PrintInt(n));
  }

  lemma JoinSplits(ns: seq<int>)
    requires Natural(ns) && ns != []
    ensures var p, j := PrintInt(ns[0]), Join(ns);
      && CommaAt(j) == |p| && j[..|p|] == p && (|ns| == 1 ==> j == p)
      && (|ns| > 1 ==> |j| > |p| && j[|p| + 1..] == Join(ns[1..]))
  {
    PrintedClean(ns);
    LinkSplits(Printed(ns));
    assert Printed(ns)[1..] == Printed(ns[1..]);
  }

  /** A joined line begins with its first number, however it is read. */
  lemma JoinStarts(ns: seq<int>)
    requires Natural(ns) && ns != []
    ensures Join(ns) != "" && Atoi(Join(ns)) == ns[0] && Strtoull0(Join(ns)) == ns[0]
  {
    var p, j := Print(ns[0], 10), Join(ns);
    JoinSplits(ns);
    assert j == p + j[|p|..];
    AtoiReads(ns[0], j[|p|..]);
    StrtoullReads(ns[0], j[|p|..]);
  }

  /** Reading the fields of a joined line gives the numbers back, and the fallback past its end. */
  lemma FieldOfJoin(ns: seq<int>, index: nat, fallback: int)
    requires Natural(ns) && ns != []
    ensures CsvInt(Join(ns), index, fallback) == if index < |ns| then ns[index] else fallback
    ensures CsvAt(Join(ns), index) != "" <==> index < |ns|
    ensures index < |ns| ==> Strtoull0(CsvAt(Join(ns), index)) == ns[index]
  {
    PrintedClean(ns);
    FromLink(Printed(ns), index);
    if index < |ns| {
      assert Printed(ns)[index..] == Printed(ns[index..]);
      JoinStarts(ns[index..]);
    }
  }
}

/**
 * What the fields of a sentence say (fm160d/src/cmds.c:2031-2142): satellites, PRNs and counts that were printed
 * into a sentence come out of it again, and what the whole block makes of the counts (2382-2400).
 */
module GnssSays {
  import opened Csv
  import opened GnssModel
  import opened GnssTheorems
  import opened Numerals

  // ---- one value ----

  // A value that a receiver can print: a natural number, or nothing at all.
  predicate Sayable(v: int) { v >= 0 || v == NONE }

  function Shown(v: int): string { if v == NONE then "" else PrintInt(v) }

  lemma ShownReads(v: int)
    requires Sayable(v)
    ensures NmeaInt(Shown(v)) == v && Clean(Shown(v))
  {
    if v >= 0 {
      AtoiReads(v, "");
      NoComma(v);
      assert PrintInt(v) + "" == PrintInt(v);
    }
  }

  // ---- cutting ----

  function Commas(s: string): nat {
    if s == "" then 0 else (if s[0] == ',' then 1 else 0) + Commas(s[1..])
  }

  lemma {:induction false} CommasAt(s: string)
    ensures Commas(s) == if CommaAt(s) == |s| then 0 else 1 + Commas(s[CommaAt(s) + 1..])
  {
    if s != "" && s[0] != ',' {
      CommasAt(s[1..]);
      assert CommaAt(s) < |s| ==> s[1..][CommaAt(s[1..]) + 1..] == s[CommaAt(s) + 1..];
    }
  }

  lemma {:induction false} PiecesCounted(s: string, limit: nat)
    requires limit > 0
    ensures |Pieces(s, limit)| == if Commas(s) + 1 < limit then Commas(s) + 1 else limit
    decreases limit
  {
    CommasAt(s);
    if limit > 1 && CommaAt(s) < |s| { PiecesCounted(s[CommaAt(s) + 1..], limit - 1); }
  }

  // One field more than there are commas, up to the limit; an empty sentence has none.
  lemma FieldsCounted(body: string, limit: nat)
    ensures |Split(body, limit)|
         == if body == "" then 0 else if Commas(body) + 1 < limit then Commas(body) + 1 else limit
  {
    if body != "" && limit > 0 { PiecesCounted(body, limit); }
  }

  // ---- satellites ----

  predicate SayableQuad(q: Quad) { Sayable(q.prn) && Sayable(q.elev) && Sayable(q.azim) && Sayable(q.snr) }

  predicate AllSayable(qs: seq<Quad>) { forall i :: 0 <= i < |qs| ==> SayableQuad(qs[i]) }

  // A satellite stands in a sentence as number, elevation, azimuth and signal.
  function QuadText(q: Quad): seq<string> { [Shown(q.prn), Shown(q.elev), Shown(q.azim), Shown(q.snr)] }

  function QuadTexts(qs: seq<Quad>): seq<string> {
    if qs == [] then [] else QuadText(qs[0]) + QuadTexts(qs[1..])
  }

  lemma QuadReads(fields: seq<string>, at: nat, q: Quad)
    requires SayableQuad(q) && at + 4 <= |fields| && fields[at..at + 4] == QuadText(q)
    ensures QuadAt(fields, at) == q
  {
    var four := fields[at..at + 4];
    assert fields[at] == four[0] && fields[at + 1] == four[1] && fields[at + 2] == four[2] && fields[at + 3] == four[3];
    ShownReads(q.prn);
    ShownReads(q.elev);
    ShownReads(q.azim);
    ShownReads(q.snr);
  }

  lemma {:induction false} QuadsRead(before: seq<string>, qs: seq<Quad>, extra: seq<string>)
    requires AllSayable(qs) && |extra| < 4
    ensures QuadsFrom(before + QuadTexts(qs) + extra, |before|) == qs
    decreases |qs|
  {
    var fields := before + QuadTexts(qs) + extra;
    if qs != [] {
      assert fields == before + QuadText(qs[0]) + QuadTexts(qs[1..]) + extra;
      QuadReads(fields, |before|, qs[0]);
      QuadsRead(before + QuadText(qs[0]), qs[1..], extra);
      assert AllSayable(qs[1..]);
    }
  }

  lemma QuadTextClean(q: Quad)
    requires SayableQuad(q)
    ensures AllClean(QuadText(q))
  {
    ShownReads(q.prn);
    ShownReads(q.elev);
    ShownReads(q.azim);
    ShownReads(q.snr);
  }

  lemma CleanJoins(a: seq<string>, b: seq<string>)
    requires AllClean(a) && AllClean(b)
    ensures AllClean(a + b)
  {
  }

  lemma {:induction false} QuadTextsClean(qs: seq<Quad>)
    requires AllSayable(qs)
    ensures AllClean(QuadTexts(qs)) && |QuadTexts(qs)| == 4 * |qs|
  {
    if qs != [] {
      QuadTextClean(qs[0]);
      QuadTextsClean(qs[1..]);
      CleanJoins(QuadText(qs[0]), QuadTexts(qs[1..]));
    }
  }

  // Satellites printed into a GSV behind its four leading fields, whatever fewer than four fields trail them, are
  // seen again as they were: in order, each value in its place, an empty one unknown.
  lemma SatellitesReadBack(talker: string, head: seq<string>, qs: seq<Quad>, extra: seq<string>, limit: nat)
    requires |head| == 4 && |extra| < 4 && AllSayable(qs) && AllClean(head) && AllClean(extra)
    requires 4 + 4 * |qs| + |extra| <= limit && head[0] != ""
    ensures var s := Sentence(talker, Gsv, Split(Link(head + QuadTexts(qs) + extra), limit));
      |Sights(s)| == |qs| && forall i :: 0 <= i < |qs| ==> Sights(s)[i] == Seen(talker, qs[i])
  {
    var fields := head + QuadTexts(qs) + extra;
    QuadTextsClean(qs);
    SplitLink(fields, limit);
    QuadsRead(head, qs, extra);
    TaggedAlike(talker, qs);
  }

  lemma SplitLink(fields: seq<string>, limit: nat)
    requires fields != [] && fields[0] != "" && AllClean(fields) && |fields| <= limit
    ensures Split(Link(fields), limit) == fields
  {
    JoinedPieces(fields, limit);
    LinkSplits(fields);
  }

  lemma {:induction false} TaggedAlike(talker: string, qs: seq<Quad>)
    ensures |Tagged(talker, qs)| == |qs| && forall i :: 0 <= i < |qs| ==> Tagged(talker, qs)[i] == Seen(talker, qs[i])
  {
    if qs != [] { TaggedAlike(talker, qs[1..]); }
  }

  // ---- PRNs ----

  function Texts(ps: seq<int>): seq<string> { seq(|ps|, i requires 0 <= i < |ps| => Shown(ps[i])) }

  function Present(ps: seq<int>): seq<int> {
    if ps == [] then [] else (if ps[0] == NONE then [] else [ps[0]]) + Present(ps[1..])
  }

  lemma {:induction false} KnownTexts(ps: seq<int>)
    requires forall i :: 0 <= i < |ps| ==> Sayable(ps[i])
    ensures Known(Texts(ps)) == Present(ps)
  {
    if ps != [] {
      ShownReads(ps[0]);
      KnownTexts(ps[1..]);
      assert Texts(ps)[1..] == Texts(ps[1..]);
    }
  }

  // PRNs printed into a GSA between its first three fields and its three dilutions are listed again in order, empty
  // ones left out, however many places the sentence has for them.
  lemma PrnsReadBack(talker: string, head: seq<string>, ps: seq<int>, dilutions: seq<string>)
    requires |head| == 3 && |dilutions| == 3 && forall i :: 0 <= i < |ps| ==> Sayable(ps[i])
    ensures Lists(Sentence(talker, Gsa, head + Texts(ps) + dilutions)) == Present(ps)
  {
    var fields := head + Texts(ps) + dilutions;
    assert fields[3..|fields| - 3] == Texts(ps);
    KnownTexts(ps);
  }

  // ---- counts and rows ----

  // The number in view is the fourth field of a GSV, and counts for its own talker.
  lemma CountReadBack(s: Sentence, v: int, talker: string)
    requires s.form == Gsv && |s.fields| >= 4 && s.fields[3] == Shown(v) && Sayable(v)
    ensures Counts(s, talker) == if talker == s.talker && v >= 0 then [v] else []
  {
    ShownReads(v);
  }

  // There are at most eight rows, each is kept, and a talker that spoke is without one only where eight have one.
  lemma {:induction false} EightRows(ss: Block)
    ensures |Talkers(ss)| <= 8
    ensures forall s :: s in ss && Speaks(s) && |Talkers(ss)| < 8 ==> s.talker in Talkers(ss)
    ensures forall t :: t in Talkers(ss) ==> exists s :: s in ss && Speaks(s) && s.talker == t
  {
    if ss != [] {
      EightRows(Front(ss));
      assert ss == Front(ss) + [Last(ss)];
    }
  }

  // Of everything seen the first 32 satellites are kept, of everything listed the first 12 PRNs of a talker.
  lemma FirstKept(ss: Block, t: string)
    ensures Sats(ss) <= Sighted(ss) && |Sats(ss)| == (if |Sighted(ss)| < 32 then |Sighted(ss)| else 32)
    ensures Used(ss, t) <= Listed(ss, t) && |Used(ss, t)| == (if |Listed(ss, t)| < 12 then |Listed(ss, t)| else 12)
  {
  }

  lemma RowsKept(ss: Block, s: Sentence)
    requires Shaped(s)
    ensures Talkers(ss) <= Talkers(ss + [s])
  {
    assert Front(ss + [s]) == ss;
  }

  function Summed(ts: seq<string>, f: string -> int): int {
    if ts == [] then 0 else Summed(ts[..|ts| - 1], f) + f(ts[|ts| - 1])
  }

  // The largest of some counts, nothing where there are none.
  predicate Peak(b: int, counts: seq<int>) {
    if counts == [] then b == 0 else b in counts && forall v :: v in counts ==> v <= b
  }

  lemma {:induction false} CountsKnown(ss: Block, t: string)
    ensures NONE !in InView(ss, t)
  {
    if ss != [] { CountsKnown(Front(ss), t); }
  }

  lemma WorthIsPeak(b: int, counts: seq<int>)
    requires NONE !in counts && Peak(b, counts)
    ensures Worth(Best(counts)) == b
  {
    BestIs(counts);
    assert forall v :: v in multiset(counts) <==> v in counts;
    if counts != [] { assert counts[0] in counts; }
  }

  lemma {:induction false} TotalSums(ts: seq<string>, ss: Block, f: string -> int)
    requires forall t :: t in ts ==> Peak(f(t), InView(ss, t))
    ensures Total(ts, ss) == Summed(ts, f)
  {
    if ts != [] {
      var t := ts[|ts| - 1];
      CountsKnown(ss, t);
      WorthIsPeak(f(t), InView(ss, t));
      TotalSums(ts[..|ts| - 1], ss, f);
    }
  }

  // The total in view adds up the largest count of each row; a row that never gave one adds nothing.
  lemma InViewSums(ss: Block, f: string -> int)
    requires forall t :: t in Talkers(ss) ==> Peak(f(t), InView(ss, t))
    ensures VisibleTotal(ss) == Summed(Talkers(ss), f)
  {
    TotalSums(Talkers(ss), ss, f);
  }
}

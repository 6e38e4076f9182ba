/** What the satellite picture promises whatever order the sentences come in (fm160d/src/cmds.c:2371-2412). */
module GnssTheorems {
  import opened Csv
  import opened GnssModel

  // ---- what a block adds up to, as bags ----

  function Bag<T(!new)>(ss: Block, f: Sentence -> multiset<T>): multiset<T> {
    if ss == [] then multiset{} else Bag(Front(ss), f) + f(Last(ss))
  }

  function VoiceOf(): Sentence -> multiset<string> {
    (s: Sentence) => if Speaks(s) then multiset{s.talker} else multiset{}
  }

  function SightsOf(): Sentence -> multiset<Seen> { (s: Sentence) => multiset(Sights(s)) }

  function PrnsOf(): Sentence -> multiset<int> { (s: Sentence) => multiset(Lists(s)) }

  function ListsOf(t: string): Sentence -> multiset<int> {
    (s: Sentence) => if s.talker == t then multiset(Lists(s)) else multiset{}
  }

  function CountsOf(t: string): Sentence -> multiset<int> {
    (s: Sentence) => if Shaped(s) then multiset(Counts(s, t)) else multiset{}
  }

  lemma FrontWithout<T>(s: seq<T>, i: nat)
    requires i < |s| - 1
    ensures var rest, front := s[..i] + s[i + 1..], s[..|s| - 1];
      |rest| == |s| - 1 && rest[..|rest| - 1] == front[..i] + front[i + 1..] && rest[|rest| - 1] == s[|s| - 1]
  {
  }

  lemma {:induction false} BagWithout<T(!new)>(ss: Block, f: Sentence -> multiset<T>, i: nat)
    requires i < |ss|
    ensures Bag(ss, f) == Bag(ss[..i] + ss[i + 1..], f) + f(ss[i])
  {
    var rest := ss[..i] + ss[i + 1..];
    if i == |ss| - 1 {
      assert rest == Front(ss);
    } else {
      FrontWithout(ss, i);
      BagWithout(Front(ss), f, i);
    }
  }

  lemma BagSplits<T>(s: seq<T>, i: nat)
    requires i < |s|
    ensures multiset(s) == multiset(s[..i] + s[i + 1..]) + multiset{s[i]}
  {
    assert s == s[..i] + [s[i]] + s[i + 1..];
  }

  lemma WithoutAlike<T>(a: seq<T>, b: seq<T>, i: nat)
    requires a != [] && i < |b| && multiset(a) == multiset(b) && b[i] == a[|a| - 1]
    ensures multiset(a[..|a| - 1]) == multiset(b[..i] + b[i + 1..])
  {
    var last := |a| - 1;
    BagSplits(a, last);
    BagSplits(b, i);
    assert a[..last] + a[last + 1..] == a[..last];
    BagCancels(multiset(a[..last]), multiset(b[..i] + b[i + 1..]), a[last]);
  }

  lemma BagCancels<T>(m: multiset<T>, n: multiset<T>, x: T)
    requires m + multiset{x} == n + multiset{x}
    ensures m == n
  {
    assert m == m + multiset{x} - multiset{x};
    assert n == n + multiset{x} - multiset{x};
  }

  // A bag does not know the order of the block.
  lemma {:induction false} BagPermutes<T(!new)>(ss: Block, tt: Block, f: Sentence -> multiset<T>)
    requires multiset(ss) == multiset(tt)
    ensures Bag(ss, f) == Bag(tt, f)
    decreases |ss|
  {
    if ss == [] {
      assert |tt| == |multiset(tt)| == 0;
    } else {
      assert Last(ss) in multiset(tt);
      var i :| 0 <= i < |tt| && tt[i] == Last(ss);
      WithoutAlike(ss, tt, i);
      BagPermutes(Front(ss), tt[..i] + tt[i + 1..], f);
      BagWithout(tt, f, i);
    }
  }

  lemma {:induction false} ListedIsBag(ss: Block, t: string)
    ensures multiset(Listed(ss, t)) == Bag(ss, ListsOf(t))
  {
    if ss != [] { ListedIsBag(Front(ss), t); }
  }

  lemma {:induction false} InViewIsBag(ss: Block, t: string)
    ensures multiset(InView(ss, t)) == Bag(ss, CountsOf(t))
  {
    if ss != [] { InViewIsBag(Front(ss), t); }
  }

  // ---- talkers ----

  function Voices(ss: Block): set<string> { set t | t in Bag(ss, VoiceOf()) }

  predicate Distinct(ts: seq<string>) { forall i, j :: 0 <= i < j < |ts| ==> ts[i] != ts[j] }

  lemma {:induction false} DistinctSize(ts: seq<string>, all: set<string>)
    requires Distinct(ts) && forall t :: t in ts ==> t in all
    ensures |ts| <= |all|
  {
    if ts != [] {
      var last := ts[|ts| - 1];
      var rest := ts[..|ts| - 1];
      assert forall t :: t in rest ==> t in ts && t != last;
      DistinctSize(rest, all - {last});
    }
  }

  lemma VoicesStep(ss: Block)
    requires ss != []
    ensures Voices(ss) == Voices(Front(ss)) + if Speaks(Last(ss)) then {Last(ss).talker} else {}
    ensures |Voices(Front(ss))| <= |Voices(ss)|
  {
    var all := Voices(Front(ss)) + if Speaks(Last(ss)) then {Last(ss).talker} else {};
    assert Voices(ss) == all;
    SetSizes(Voices(Front(ss)), all);
  }

  lemma {:induction false} SetSizes(a: set<string>, b: set<string>)
    requires a <= b
    ensures |a| <= |b|
  {
    if a != {} {
      var x :| x in a;
      SetSizes(a - {x}, b - {x});
    }
  }

  // With at most eight voices in the block every one of them has a row.
  lemma {:induction false} TalkersAll(ss: Block)
    requires |Voices(ss)| <= 8
    ensures Distinct(Talkers(ss)) && forall t :: t in Talkers(ss) <==> t in Voices(ss)
  {
    if ss != [] {
      VoicesStep(ss);
      TalkersAll(Front(ss));
      var before := Talkers(Front(ss));
      if Speaks(Last(ss)) && Last(ss).talker !in before {
        DistinctSize(before + [Last(ss).talker], Voices(ss));
      }
    }
  }

  lemma {:induction false} SightedIsBag(ss: Block)
    requires |Voices(ss)| <= CONST_MAX
    ensures multiset(Sighted(ss)) == Bag(ss, SightsOf())
  {
    if ss != [] {
      VoicesStep(ss);
      TalkersAll(ss);
      SightedIsBag(Front(ss));
    }
  }

  lemma {:induction false} SatsUsedIsBag(ss: Block)
    requires |Voices(ss)| <= CONST_MAX
    ensures SatsUsed(ss) == |Bag(ss, PrnsOf())|
  {
    if ss != [] {
      VoicesStep(ss);
      TalkersAll(ss);
      SatsUsedIsBag(Front(ss));
    }
  }

  // ---- the best of some values ----

  ghost predicate IsBest(b: int, values: multiset<int>) {
    && (b == NONE ==> forall v :: v in values ==> v == NONE)
    && (b != NONE ==> b in values && forall v :: v in values && v != NONE ==> v <= b)
  }

  lemma {:induction false} BestIs(values: seq<int>)
    ensures IsBest(Best(values), multiset(values))
  {
    if values != [] {
      var front := values[..|values| - 1];
      BestIs(front);
      assert values == front + [values[|values| - 1]];
    }
  }

  lemma BestPermutes(a: seq<int>, b: seq<int>)
    requires multiset(a) == multiset(b)
    ensures Best(a) == Best(b)
  {
    BestIs(a);
    BestIs(b);
  }

  lemma {:induction false} SnrsPermute(a: seq<Seen>, b: seq<Seen>)
    requires multiset(a) == multiset(b)
    ensures multiset(Snrs(a)) == multiset(Snrs(b))
    decreases |a|
  {
    if a == [] {
      assert |b| == |multiset(b)| == 0;
    } else {
      var last := a[|a| - 1];
      assert last in multiset(b);
      var i :| 0 <= i < |b| && b[i] == last;
      var front, rest := a[..|a| - 1], b[..i] + b[i + 1..];
      WithoutAlike(a, b, i);
      SnrsPermute(front, rest);
      assert Snrs(a) == Snrs(front) + [last.quad.snr];
      assert Snrs(rest) == Snrs(b[..i]) + Snrs(b[i + 1..]);
      assert Snrs(b) == Snrs(b[..i]) + [last.quad.snr] + Snrs(b[i + 1..]);
    }
  }

  // ---- the sum over the talkers ----

  lemma {:induction false} TotalWithout(ts: seq<string>, ss: Block, i: nat)
    requires i < |ts|
    ensures Total(ts, ss) == Total(ts[..i] + ts[i + 1..], ss) + Worth(Best(InView(ss, ts[i])))
  {
    var rest := ts[..i] + ts[i + 1..];
    if i == |ts| - 1 {
      assert rest == ts[..|ts| - 1];
    } else {
      FrontWithout(ts, i);
      TotalWithout(ts[..|ts| - 1], ss, i);
    }
  }

  lemma {:induction false} TotalPermutes(ts: seq<string>, us: seq<string>, ss: Block, tt: Block)
    requires Distinct(ts) && Distinct(us) && forall t :: t in ts <==> t in us
    requires forall t :: t in ts ==> Best(InView(ss, t)) == Best(InView(tt, t))
    ensures Total(ts, ss) == Total(us, tt)
    decreases |ts|
  {
    if ts == [] {
      FirstIn(us);
    } else {
      var last, front := ts[|ts| - 1], ts[..|ts| - 1];
      assert last in us;
      var i :| 0 <= i < |us| && us[i] == last;
      var rest := us[..i] + us[i + 1..];
      Omitted(ts, |ts| - 1);
      Omitted(us, i);
      assert ts[..|ts| - 1] + ts[|ts|..] == front;
      TotalPermutes(front, rest, ss, tt);
      TotalWithout(us, tt, i);
    }
  }

  lemma FirstIn(ts: seq<string>)
    ensures ts != [] ==> ts[0] in ts
  {
  }

  lemma Omitted(ts: seq<string>, i: nat)
    requires Distinct(ts) && i < |ts|
    ensures var rest := ts[..i] + ts[i + 1..];
      Distinct(rest) && forall t :: t in rest <==> t in ts && t != ts[i]
  {
    var rest := ts[..i] + ts[i + 1..];
    assert forall k :: 0 <= k < |rest| ==> rest[k] == ts[if k < i then k else k + 1];
    forall t | t in ts && t != ts[i] ensures t in rest {
      var k :| 0 <= k < |ts| && ts[k] == t;
      assert rest[if k < i then k else k - 1] == t;
    }
  }

  // ---- the promises ----

  // The block fits the tables: talkers, satellites, and the PRNs that any one talker lists.
  ghost predicate Fits(ss: Block) {
    && |Voices(ss)| <= 8 && |Bag(ss, SightsOf())| <= 32
    && forall t :: |Listed(ss, t)| <= 12
  }

  lemma FitsPermutes(ss: Block, tt: Block)
    requires multiset(ss) == multiset(tt) && Fits(ss)
    ensures Fits(tt) && Voices(tt) == Voices(ss)
  {
    BagPermutes(ss, tt, VoiceOf());
    BagPermutes(ss, tt, SightsOf());
    forall t ensures |Listed(tt, t)| <= USED_MAX {
      ListedAlike(ss, tt, t);
    }
  }

  lemma ListedAlike(ss: Block, tt: Block, t: string)
    requires multiset(ss) == multiset(tt)
    ensures multiset(Listed(ss, t)) == multiset(Listed(tt, t)) && |Listed(ss, t)| == |Listed(tt, t)|
  {
    ListedIsBag(ss, t);
    ListedIsBag(tt, t);
    BagPermutes(ss, tt, ListsOf(t));
    assert |multiset(Listed(ss, t))| == |Listed(ss, t)| && |multiset(Listed(tt, t))| == |Listed(tt, t)|;
  }

  // Within the capacities, a permutation of the sentences keeps the satellites, each one's place in the
  // fix, the total in view, the best signal and the count of satellites used.
  lemma OrderFree(ss: Block, tt: Block)
    requires multiset(ss) == multiset(tt) && Fits(ss)
    ensures multiset(Sats(ss)) == multiset(Sats(tt))
    ensures forall seen :: InFix(ss, seen) == InFix(tt, seen)
    ensures VisibleTotal(ss) == VisibleTotal(tt)
    ensures SnrBest(ss) == SnrBest(tt)
    ensures SatsUsed(ss) == SatsUsed(tt)
  {
    FitsPermutes(ss, tt);
    SatsAlike(ss, tt);
    SnrsPermute(Sats(ss), Sats(tt));
    BestPermutes(Snrs(Sats(ss)), Snrs(Sats(tt)));
    forall seen ensures InFix(ss, seen) == InFix(tt, seen) {
      FixAlike(ss, tt, seen);
    }
    TotalAlike(ss, tt);
    SatsUsedIsBag(ss);
    SatsUsedIsBag(tt);
    BagPermutes(ss, tt, PrnsOf());
  }

  lemma SatsAlike(ss: Block, tt: Block)
    requires multiset(ss) == multiset(tt) && Fits(ss) && Fits(tt)
    ensures multiset(Sats(ss)) == multiset(Sats(tt))
  {
    SightedIsBag(ss);
    SightedIsBag(tt);
    BagPermutes(ss, tt, SightsOf());
    assert |multiset(Sighted(ss))| == |Sighted(ss)| && |multiset(Sighted(tt))| == |Sighted(tt)|;
  }

  lemma FixAlike(ss: Block, tt: Block, seen: Seen)
    requires multiset(ss) == multiset(tt) && Fits(ss) && Fits(tt)
    ensures InFix(ss, seen) == InFix(tt, seen)
  {
    ListedAlike(ss, tt, seen.talker);
    var a, b := Listed(ss, seen.talker), Listed(tt, seen.talker);
    assert |a| <= USED_MAX && |b| <= USED_MAX;
    assert seen.quad.prn in a <==> seen.quad.prn in multiset(a);
    assert seen.quad.prn in b <==> seen.quad.prn in multiset(b);
  }

  lemma TotalAlike(ss: Block, tt: Block)
    requires multiset(ss) == multiset(tt) && Fits(ss) && Fits(tt) && Voices(ss) == Voices(tt)
    ensures VisibleTotal(ss) == VisibleTotal(tt)
  {
    TalkersAll(ss);
    TalkersAll(tt);
    forall t ensures Best(InView(ss, t)) == Best(InView(tt, t)) {
      InViewIsBag(ss, t);
      InViewIsBag(tt, t);
      BagPermutes(ss, tt, CountsOf(t));
      BestPermutes(InView(ss, t), InView(tt, t));
    }
    TotalPermutes(Talkers(ss), Talkers(tt), ss, tt);
  }

  ghost predicate ListsIt(s: Sentence, seen: Seen) {
    s.form == Gsa && s.talker == seen.talker && seen.quad.prn in Prns(s.fields)
  }

  ghost predicate ListedSomewhere(ss: Block, seen: Seen) {
    exists s :: s in ss && ListsIt(s, seen)
  }

  lemma SomewhereStep(ss: Block, seen: Seen)
    requires ss != []
    ensures ListedSomewhere(ss, seen) <==> ListedSomewhere(Front(ss), seen) || ListsIt(Last(ss), seen)
  {
    assert forall s :: s in ss <==> s in Front(ss) || s == Last(ss);
  }

  lemma {:induction false} ListedWhere(ss: Block, seen: Seen)
    ensures seen.quad.prn in Listed(ss, seen.talker) <==> ListedSomewhere(ss, seen)
  {
    if ss != [] {
      ListedWhere(Front(ss), seen);
      SomewhereStep(ss, seen);
    }
  }

  // A satellite is in the fix if and only if some GSA of its own talker, before or after it, lists its PRN.
  lemma FixMeansListed(ss: Block, seen: Seen)
    requires |Listed(ss, seen.talker)| <= 12
    ensures InFix(ss, seen) <==> ListedSomewhere(ss, seen)
  {
    ListedWhere(ss, seen);
  }

  // ---- cutting a sentence into fields ----

  // The fields, joined again, are the sentence.
  lemma {:induction false} PiecesJoin(s: string, limit: nat)
    requires limit > 0
    ensures 0 < |Pieces(s, limit)| <= limit && Link(Pieces(s, limit)) == s
    decreases limit
  {
    if limit > 1 && CommaAt(s) < |s| {
      var k := CommaAt(s);
      PiecesJoin(s[k + 1..], limit - 1);
      LinkCons(s[..k], Pieces(s[k + 1..], limit - 1));
      assert s == s[..k] + "," + s[k + 1..];
    }
  }

  lemma LinkCons(f: string, rest: seq<string>)
    requires rest != []
    ensures Link([f] + rest) == f + "," + Link(rest)
  {
    assert ([f] + rest)[1..] == rest;
  }

  // And fields without commas, no more than the limit, come out of their sentence as they went in.
  lemma {:induction false} JoinedPieces(fields: seq<string>, limit: nat)
    requires 0 < |fields| <= limit && AllClean(fields)
    ensures Pieces(Link(fields), limit) == fields
    decreases limit
  {
    if |fields| > 1 {
      JoinedPieces(fields[1..], limit - 1);
      PiecesStep(fields, limit);
      assert [fields[0]] + fields[1..] == fields;
    } else {
      OnePiece(fields, limit);
    }
  }

  lemma OnePiece(fields: seq<string>, limit: nat)
    requires limit > 0 && |fields| == 1 && AllClean(fields)
    ensures Pieces(Link(fields), limit) == fields
  {
    LinkSplits(fields);
  }

  lemma PiecesStep(fields: seq<string>, limit: nat)
    requires limit > 1 && |fields| > 1 && AllClean(fields)
    ensures Pieces(Link(fields), limit) == [fields[0]] + Pieces(Link(fields[1..]), limit - 1)
  {
    LinkSplits(fields);
  }
}

/** The satellite picture as the parser builds it, sentence by sentence (fm160d/src/cmds.c:2031-2187, 2382-2412). */
module GnssCode {
  import opened Csv
  import opened GnssModel
  import opened GnssTheorems

  // One row of the table of constellations, and one satellite; `used` is the kept PRN list.
  datatype Row = Row(talker: string, visible: int, parsed: nat, inFix: nat, snrBest: int, used: seq<int>)
  datatype Sat = Sat(slot: nat, quad: Quad, inFix: bool)

  // ---- what a row stands for ----

  // The signal strengths of one talker's satellites.
  function SnrsOf(seen: seq<Seen>, t: string): seq<int> {
    if seen == [] then []
    else
      var last := seen[|seen| - 1];
      SnrsOf(seen[..|seen| - 1], t) + if last.talker == t then [last.quad.snr] else []
  }

  ghost predicate SeenBy(r: Row, seen: seq<Seen>) {
    r.snrBest == Best(SnrsOf(seen, r.talker)) && r.parsed == |SnrsOf(seen, r.talker)|
  }

  ghost predicate HeardBy(r: Row, ss: Block) {
    r.visible == Best(InView(ss, r.talker)) && r.used == Used(ss, r.talker) && r.inFix == |r.used|
  }

  ghost predicate RowsFor(rows: seq<Row>, ts: seq<string>, ss: Block, seen: seq<Seen>) {
    && |rows| == |ts|
    && forall i :: 0 <= i < |rows| ==> rows[i].talker == ts[i] && HeardBy(rows[i], ss) && SeenBy(rows[i], seen)
  }

  // All three tables are those of the block.
  ghost predicate Tables(rows: seq<Row>, sats: seq<Sat>, satsUsed: nat, ss: Block) {
    RowsFor(rows, Talkers(ss), ss, Sats(ss)) && SatsFor(sats, Talkers(ss), Sats(ss)) && satsUsed == SatsUsed(ss)
  }

  ghost predicate SatsFor(sats: seq<Sat>, ts: seq<string>, seen: seq<Seen>) {
    && |sats| == |seen|
    && forall j :: 0 <= j < |sats| ==> sats[j].slot < |ts| && seen[j] == Seen(ts[sats[j].slot], sats[j].quad)
  }

  lemma {:induction false} TalkersDistinct(ss: Block)
    ensures Distinct(Talkers(ss)) && |Talkers(ss)| <= CONST_MAX
  {
    if ss != [] { TalkersDistinct(Front(ss)); }
  }

  // A talker without a row, while there is room for one, has said nothing yet.
  lemma {:induction false} NotYet(ss: Block, t: string)
    requires t !in Talkers(ss) && |Talkers(ss)| < CONST_MAX
    ensures InView(ss, t) == [] && Listed(ss, t) == []
  {
    if ss != [] { NotYet(Front(ss), t); }
  }

  lemma {:induction false} TaggedBy(t: string, quads: seq<Quad>)
    ensures |Tagged(t, quads)| == |quads|
    ensures forall i :: 0 <= i < |quads| ==> Tagged(t, quads)[i] == Seen(t, quads[i])
  {
    if quads != [] { TaggedBy(t, quads[1..]); }
  }

  lemma SightsBy(s: Sentence)
    ensures forall seen :: seen in Sights(s) ==> seen.talker == s.talker
  {
    if s.form == Gsv { TaggedBy(s.talker, QuadsFrom(s.fields, 4)); }
  }

  // Only talkers with a row have satellites.
  lemma {:induction false} SightedBy(ss: Block, t: string)
    requires t !in Talkers(ss)
    ensures forall seen :: seen in Sighted(ss) ==> seen.talker != t
  {
    if ss != [] {
      SightedBy(Front(ss), t);
      SightsBy(Last(ss));
    }
  }

  lemma {:induction false} NoSnrs(seen: seq<Seen>, t: string)
    requires forall x :: x in seen ==> x.talker != t
    ensures SnrsOf(seen, t) == []
  {
    if seen != [] { NoSnrs(seen[..|seen| - 1], t); }
  }

  lemma FreshRow(ss: Block, t: string)
    requires t !in Talkers(ss) && |Talkers(ss)| < CONST_MAX
    ensures var r := Row(t, NONE, 0, 0, NONE, []); HeardBy(r, ss) && SeenBy(r, Sats(ss))
  {
    NotYet(ss, t);
    SightedBy(ss, t);
    NoSnrs(Sats(ss), t);
  }

  // Where a talker's row is: at `slot`, or nowhere.
  ghost predicate Placed(rows: seq<Row>, ss: Block, t: string, slot: int) {
    var ts := Enter(Talkers(ss), t);
    && RowsFor(rows, ts, ss, Sats(ss))
    && (if slot < 0 then t !in ts else slot < |ts| && ts[slot] == t)
  }

  lemma RowFound(rows: seq<Row>, ss: Block, t: string, slot: nat)
    requires RowsFor(rows, Talkers(ss), ss, Sats(ss)) && slot < |rows| && rows[slot].talker == t
    ensures Placed(rows, ss, t, slot)
  {
    assert Talkers(ss)[slot] == t;
  }

  lemma RowMissing(rows: seq<Row>, ss: Block, t: string)
    requires RowsFor(rows, Talkers(ss), ss, Sats(ss)) && forall i :: 0 <= i < |rows| ==> rows[i].talker != t
    ensures |rows| >= CONST_MAX ==> Placed(rows, ss, t, -1)
    ensures |rows| < CONST_MAX ==> Placed(rows + [Row(t, NONE, 0, 0, NONE, [])], ss, t, |rows|)
  {
    assert forall i :: 0 <= i < |rows| ==> rows[i].talker == Talkers(ss)[i];
    if |rows| < CONST_MAX { FreshRow(ss, t); }
  }

  lemma EnterDistinct(ss: Block, t: string)
    ensures Distinct(Enter(Talkers(ss), t)) && |Sats(ss)| <= SAT_MAX
  {
    TalkersDistinct(ss);
  }

  lemma SnrsOfNext(seen: seq<Seen>, x: Seen, t: string)
    ensures SnrsOf(seen + [x], t) == SnrsOf(seen, t) + if x.talker == t then [x.quad.snr] else []
  {
    assert (seen + [x])[..|seen|] == seen;
  }

  lemma BestNext(values: seq<int>, v: int)
    ensures Best(values + [v]) == Raise(Best(values), v)
  {
    assert (values + [v])[..|values|] == values;
  }

  lemma {:induction false} KnownNext(fields: seq<string>, f: string)
    ensures Known(fields + [f]) == Known(fields) + if NmeaInt(f) == NONE then [] else [NmeaInt(f)]
  {
    if fields == [] {
      assert fields + [f] == [f];
    } else {
      assert (fields + [f])[1..] == fields[1..] + [f];
      KnownNext(fields[1..], f);
    }
  }

  // ---- cutting a sentence ----

  // The fields so far end at `start`, room is left for `room` more, and no comma is between `start` and `p`.
  ghost predicate Cutting(all: seq<string>, body: string, room: nat, fields: seq<string>, start: nat, p: nat) {
    && start <= p <= |body| && room > 0 && Clean(body[start..p])
    && all == fields + Pieces(body[start..], room)
  }

  lemma CutStart(all: seq<string>, body: string, room: nat, fields: seq<string>, start: nat)
    requires start <= |body| && room > 0 && all == fields + Pieces(body[start..], room)
    ensures Cutting(all, body, room, fields, start, start)
  {
    assert body[start..start] == "";
  }

  lemma CutWhole(body: string, limit: nat)
    requires limit > 0
    ensures Cutting(Pieces(body, limit), body, limit, [], 0, 0)
  {
    assert body[0..] == body;
    CutStart(Pieces(body, limit), body, limit, [], 0);
  }

  lemma CutHere(all: seq<string>, body: string, room: nat, fields: seq<string>, start: nat, p: nat)
    requires Cutting(all, body, room, fields, start, p) && p < |body| && body[p] == ',' && room > 1
    ensures Cutting(all, body, room - 1, fields + [body[start..p]], p + 1, p + 1)
  {
    PieceAt(body, start, p, room);
    Regroup(all, fields, Pieces(body[start..], room), body[start..p], Pieces(body[p + 1..], room - 1));
    CutStart(all, body, room - 1, fields + [body[start..p]], p + 1);
  }

  lemma PieceAt(body: string, start: nat, p: nat, limit: nat)
    requires start <= p < |body| && body[p] == ',' && Clean(body[start..p]) && limit > 1
    ensures Pieces(body[start..], limit) == [body[start..p]] + Pieces(body[p + 1..], limit - 1)
  {
    var s, n := body[start..], p - start;
    assert s[..n] == body[start..p] && s[n + 1..] == body[p + 1..];
    PieceEnds(s, n, limit);
  }

  // A list cut after `done` can be cut one element later.
  lemma Regroup<T>(all: seq<T>, done: seq<T>, tail: seq<T>, x: T, rest: seq<T>)
    requires all == done + tail && tail == [x] + rest
    ensures all == done + [x] + rest
  {
  }

  lemma CutLater(all: seq<string>, body: string, room: nat, fields: seq<string>, start: nat, p: nat)
    requires Cutting(all, body, room, fields, start, p) && p < |body| && body[p] != ','
    ensures Cutting(all, body, room, fields, start, p + 1)
  {
    assert body[start..p + 1] == body[start..p] + [body[p]];
  }

  lemma CutOff(all: seq<string>, body: string, room: nat, fields: seq<string>, start: nat, p: nat)
    requires Cutting(all, body, room, fields, start, p) && (p == |body| || room == 1)
    ensures all == fields + [body[start..]]
  {
    if p == |body| {
      assert body[start..p] == body[start..];
      LastPiece(body[start..], room);
    }
  }

  lemma PieceEnds(s: string, n: nat, limit: nat)
    requires n < |s| && s[n] == ',' && Clean(s[..n]) && limit > 1
    ensures Pieces(s, limit) == [s[..n]] + Pieces(s[n + 1..], limit - 1)
  {
    assert s == s[..n] + s[n..];
    CommaAfter(s[..n], s[n..]);
  }

  lemma LastPiece(s: string, limit: nat)
    requires Clean(s) && limit > 0
    ensures Pieces(s, limit) == [s]
  {
    CommaAfter(s, "");
    assert s + "" == s;
  }

  // nmea_split: a field ends at each comma until the last one allowed.
  method NmeaSplit(body: string, limit: nat) returns (fields: seq<string>)
    ensures fields == Split(body, limit)
  {
    if body == "" || limit < 1 {
      return [];
    }
    fields := [];
    var start, p := 0, 0;
    ghost var all, room := Pieces(body, limit), limit;
    CutWhole(body, limit);
    while p < |body| && |fields| + 1 < limit
      invariant room > 0 && room + |fields| == limit && Cutting(all, body, room, fields, start, p)
    {
      if body[p] == ',' {
        CutHere(all, body, room, fields, start, p);
        fields := fields + [body[start..p]];
        start, room := p + 1, room - 1;
      } else {
        CutLater(all, body, room, fields, start, p);
      }
      p := p + 1;
    }
    CutOff(all, body, room, fields, start, p);
    fields := fields + [body[start..]];
  }

  // ---- one more sentence ----

  lemma NextTalkers(ss: Block, s: Sentence)
    requires Shaped(s)
    ensures Talkers(ss + [s]) == if Speaks(s) then Enter(Talkers(ss), s.talker) else Talkers(ss)
    ensures SatsUsed(ss + [s]) == SatsUsed(ss) + if s.talker in Talkers(ss + [s]) then |Lists(s)| else 0
    ensures Sighted(ss + [s]) == Sighted(ss) + if s.talker in Talkers(ss + [s]) then Sights(s) else []
  {
    assert (ss + [s])[..|ss|] == ss;
  }

  lemma NextHeard(ss: Block, s: Sentence, t: string)
    requires Shaped(s)
    ensures InView(ss + [s], t) == InView(ss, t) + Counts(s, t)
    ensures Listed(ss + [s], t) == Listed(ss, t) + if s.talker == t then Lists(s) else []
  {
    assert (ss + [s])[..|ss|] == ss;
  }

  // Another talker's row is as it was.
  lemma OthersHeard(r: Row, ss: Block, s: Sentence)
    requires Shaped(s) && HeardBy(r, ss) && (s.talker != r.talker || !Speaks(s))
    ensures HeardBy(r, ss + [s])
  {
    NextHeard(ss, s, r.talker);
    assert InView(ss, r.talker) + [] == InView(ss, r.talker);
    assert Listed(ss, r.talker) + [] == Listed(ss, r.talker);
  }

  lemma RowsStay(rows: seq<Row>, ts: seq<string>, ss: Block, s: Sentence, seen: seq<Seen>, but: int)
    requires Shaped(s) && RowsFor(rows, ts, ss, seen)
    requires forall i :: 0 <= i < |rows| && i != but ==> s.talker != ts[i] || !Speaks(s)
    ensures forall i :: 0 <= i < |rows| && i != but ==> HeardBy(rows[i], ss + [s])
  {
    forall i | 0 <= i < |rows| && i != but ensures HeardBy(rows[i], ss + [s]) {
      OthersHeard(rows[i], ss, s);
    }
  }

  // A sentence of a talker without a row changes no result.
  lemma Unheard(rows: seq<Row>, ts: seq<string>, ss: Block, s: Sentence, seen: seq<Seen>)
    requires Shaped(s) && RowsFor(rows, ts, ss, seen) && (s.talker !in ts || !Speaks(s))
    ensures RowsFor(rows, ts, ss + [s], seen)
  {
    RowsStay(rows, ts, ss, s, seen, -1);
  }

  lemma NothingAdded(ss: Block, s: Sentence)
    requires Shaped(s) && (!Speaks(s) || s.talker !in Talkers(ss + [s]))
    ensures Sats(ss + [s]) == Sats(ss) && SatsUsed(ss + [s]) == SatsUsed(ss)
  {
    NextTalkers(ss, s);
  }

  // A GSV quad of row `slot` joins the satellites.
  lemma SeenGrows(rows: seq<Row>, ts: seq<string>, ss: Block, seen: seq<Seen>, x: Seen, slot: nat, r: Row)
    requires Distinct(ts) && RowsFor(rows, ts, ss, seen) && slot < |rows| && x.talker == ts[slot]
    requires r.talker == x.talker && HeardBy(r, ss) && r.parsed == rows[slot].parsed + 1
    requires r.snrBest == Raise(rows[slot].snrBest, x.quad.snr)
    ensures RowsFor(rows[slot := r], ts, ss, seen + [x])
  {
    var grown := rows[slot := r];
    forall i | 0 <= i < |grown| ensures SeenBy(grown[i], seen + [x]) {
      SnrsOfNext(seen, x, ts[i]);
      if i == slot {
        BestNext(SnrsOf(seen, ts[i]), x.quad.snr);
      } else {
        assert SnrsOf(seen, ts[i]) + [] == SnrsOf(seen, ts[i]);
      }
    }
  }

  // ---- one GSV ----

  lemma TakeTake<T>(a: seq<T>, b: seq<T>, n: nat)
    ensures Take(Take(a, n) + b, n) == Take(a + b, n)
  {
  }

  // The sentence's own row brought up to date, and every other row as it was.
  lemma RowReplaced(rows: seq<Row>, ts: seq<string>, ss: Block, s: Sentence, seen: seq<Seen>, slot: nat, r: Row)
    requires Shaped(s) && Distinct(ts) && RowsFor(rows, ts, ss, seen) && slot < |ts| && ts[slot] == s.talker
    requires r.talker == s.talker && HeardBy(r, ss + [s]) && SeenBy(r, seen)
    ensures RowsFor(rows[slot := r], ts, ss + [s], seen)
  {
    RowsStay(rows, ts, ss, s, seen, slot);
  }

  lemma HeardGsv(r: Row, ss: Block, s: Sentence, visible: int)
    requires s.form == Gsv && Shaped(s) && s.talker == r.talker && HeardBy(r, ss)
    requires visible == Raise(r.visible, NmeaInt(s.fields[3]))
    ensures HeardBy(Row(r.talker, visible, r.parsed, r.inFix, r.snrBest, r.used), ss + [s])
  {
    NextHeard(ss, s, s.talker);
    assert Listed(ss, s.talker) + [] == Listed(ss, s.talker);
    if NmeaInt(s.fields[3]) != NONE {
      BestNext(InView(ss, s.talker), NmeaInt(s.fields[3]));
    } else {
      assert InView(ss, s.talker) + [] == InView(ss, s.talker);
    }
  }

  // The groups from field `at` on are the one there and those four fields later.
  lemma TaggedNext(t: string, fields: seq<string>, at: nat)
    requires at + 4 <= |fields|
    ensures Tagged(t, QuadsFrom(fields, at)) == [Seen(t, QuadAt(fields, at))] + Tagged(t, QuadsFrom(fields, at + 4))
  {
    var quads := QuadsFrom(fields, at);
    assert quads[1..] == QuadsFrom(fields, at + 4);
  }

  // What is left to add to the satellites so far.
  ghost predicate Adding(seen: seq<Seen>, rest: seq<Seen>, goal: seq<Seen>) {
    |seen| <= SAT_MAX && Take(seen + rest, SAT_MAX) == goal
  }

  // The same, where what is left are the groups from field `at` on.
  ghost predicate ToGo(t: string, fields: seq<string>, at: nat, seen: seq<Seen>, rest: seq<Seen>, goal: seq<Seen>) {
    rest == Tagged(t, QuadsFrom(fields, at)) && Adding(seen, rest, goal)
  }

  lemma NothingToGo(t: string, fields: seq<string>, at: nat, seen: seq<Seen>, rest: seq<Seen>, goal: seq<Seen>)
    requires ToGo(t, fields, at, seen, rest, goal) && (at + 4 > |fields| || |seen| >= SAT_MAX)
    ensures seen == goal
  {
    AddsUp(seen, rest, goal);
  }

  lemma AddOne(seen: seq<Seen>, x: Seen, rest: seq<Seen>, goal: seq<Seen>)
    requires Adding(seen, [x] + rest, goal) && |seen| < SAT_MAX
    ensures Adding(seen + [x], rest, goal)
  {
    assert seen + ([x] + rest) == seen + [x] + rest;
  }

  lemma AddsUp(seen: seq<Seen>, rest: seq<Seen>, goal: seq<Seen>)
    requires Adding(seen, rest, goal) && (rest == [] || |seen| == SAT_MAX)
    ensures seen == goal
  {
    if rest == [] { assert seen + rest == seen; }
  }

  // A talker with a row adds what it sees and lists.
  lemma NextResults(ss: Block, s: Sentence)
    requires Shaped(s) && Speaks(s) && s.talker in Enter(Talkers(ss), s.talker)
    ensures Distinct(Enter(Talkers(ss), s.talker)) && Talkers(ss + [s]) == Enter(Talkers(ss), s.talker)
    ensures Sats(ss + [s]) == Take(Sats(ss) + Sights(s), SAT_MAX)
    ensures SatsUsed(ss + [s]) == SatsUsed(ss) + |Lists(s)|
  {
    NextTalkers(ss, s);
    TalkersDistinct(ss + [s]);
    TakeTake(Sighted(ss), Sights(s), SAT_MAX);
  }

  lemma NoSights(seen: seq<Seen>)
    requires |seen| <= SAT_MAX
    ensures Take(seen + [], SAT_MAX) == seen
  {
    assert seen + [] == seen;
  }

  lemma WiderTable(sats: seq<Sat>, ts: seq<string>, talker: string, seen: seq<Seen>)
    requires SatsFor(sats, ts, seen)
    ensures SatsFor(sats, Enter(ts, talker), seen)
  {
  }

  // The tables that a sentence of a talker with a row has to leave behind are those of the longer block.
  lemma Settled(rows: seq<Row>, sats: seq<Sat>, ss: Block, s: Sentence, ts: seq<string>, all: seq<Seen>)
    requires Shaped(s) && Speaks(s) && ts == Enter(Talkers(ss), s.talker) && s.talker in ts
    requires all == Take(Sats(ss) + Sights(s), SAT_MAX)
    requires RowsFor(rows, ts, ss + [s], all) && SatsFor(sats, ts, all)
    ensures Tables(rows, sats, SatsUsed(ss) + |Lists(s)|, ss + [s])
  {
    NextResults(ss, s);
  }

  // A GSV lists no satellite as used, so the number of those stays.
  lemma SettledView(rows: seq<Row>, sats: seq<Sat>, satsUsed: nat, ss: Block, s: Sentence, ts: seq<string>)
    requires s.form == Gsv && Shaped(s) && ts == Enter(Talkers(ss), s.talker) && s.talker in ts
    requires satsUsed == SatsUsed(ss)
    requires var all := Take(Sats(ss) + Sights(s), SAT_MAX); RowsFor(rows, ts, ss + [s], all) && SatsFor(sats, ts, all)
    ensures Tables(rows, sats, satsUsed, ss + [s])
  {
    Settled(rows, sats, ss, s, ts, Take(Sats(ss) + Sights(s), SAT_MAX));
  }

  // A sentence that is skipped, or whose talker found no room, leaves them as they are.
  lemma Unmoved(rows: seq<Row>, sats: seq<Sat>, ss: Block, s: Sentence)
    requires Shaped(s) && (!Speaks(s) || s.talker !in Enter(Talkers(ss), s.talker))
    requires Tables(rows, sats, SatsUsed(ss), ss)
    ensures Tables(rows, sats, SatsUsed(ss), ss + [s])
  {
    NextTalkers(ss, s);
    NothingAdded(ss, s);
    Unheard(rows, Talkers(ss), ss, s, Sats(ss));
  }

  // ---- one GSA ----

  // The row after a GSA whose PRNs brought its talker's list to `used`.
  lemma HeardGsa(r: Row, ss: Block, s: Sentence, used: seq<int>)
    requires s.form == Gsa && s.talker == r.talker && HeardBy(r, ss)
    requires used == Take(Listed(ss, s.talker) + Lists(s), USED_MAX)
    ensures HeardBy(Row(r.talker, r.visible, r.parsed, |used|, r.snrBest, used), ss + [s])
  {
    NextHeard(ss, s, s.talker);
    assert InView(ss, s.talker) + [] == InView(ss, s.talker);
  }

  // The walk over the PRN fields: how many are filled in, and the list they extend up to its capacity.
  method AddPrns(kept: seq<int>, fields: seq<string>, ghost listed: seq<int>) returns (used: seq<int>, count: nat)
    requires |fields| >= 5 && kept == Take(listed, USED_MAX)
    ensures used == Take(listed + Prns(fields), USED_MAX) && count == |Prns(fields)|
  {
    used, count := kept, 0;
    var i, dopBase := 3, |fields| - 3;
    assert listed + [] == listed;
    while i < dopBase
      invariant 3 <= i && (i <= dopBase || i == 3)
      invariant i <= |fields| && count == |Known(fields[3..i])|
      invariant used == Take(listed + Known(fields[3..i]), USED_MAX)
    {
      assert fields[3..i + 1] == fields[3..i] + [fields[i]];
      KnownNext(fields[3..i], fields[i]);
      var prn := NmeaInt(fields[i]);
      if prn != NONE {
        Longer(listed, Known(fields[3..i]), prn);
        count := count + 1;
        if |used| < USED_MAX {
          used := used + [prn];
        }
      }
      i := i + 1;
    }
  }

  lemma Longer(listed: seq<int>, known: seq<int>, prn: int)
    ensures var used := Take(listed + known, USED_MAX);
      Take(listed + (known + [prn]), USED_MAX) == if |used| < USED_MAX then used + [prn] else used
  {
    assert listed + (known + [prn]) == listed + known + [prn];
  }

  class Reading {
    var rows: seq<Row>
    var sats: seq<Sat>
    var satsUsed: nat
    var ignored: nat
    var badShape: nat
    var visibleTotal: int
    var snrBest: int
    ghost var block: Block

    // The tables are those of the sentences read so far.
    ghost predicate Valid()
      reads this
    {
      Tables(rows, sats, satsUsed, block)
    }

    constructor ()
      ensures Valid() && block == []
    {
      rows, sats, satsUsed, ignored, badShape := [], [], 0, 0, 0;
      visibleTotal, snrBest := 0, NONE;
      block := [];
    }

    method FindRow(talker: string) returns (i: nat)
      ensures i <= |rows| && (i < |rows| ==> rows[i].talker == talker)
      ensures forall j :: 0 <= j < i ==> rows[j].talker != talker
    {
      i := 0;
      while i < |rows|
        invariant i <= |rows| && forall j :: 0 <= j < i ==> rows[j].talker != talker
      {
        if rows[i].talker == talker {
          return;
        }
        i := i + 1;
      }
    }

    // gnss_slot: the talker's row, made on first sight while there is room, or -1.
    method Slot(talker: string) returns (slot: int)
      requires Valid()
      modifies `rows
      ensures Placed(rows, block, talker, slot)
    {
      slot := FindRow(talker);
      if slot < |rows| {
        RowFound(rows, block, talker, slot);
        return;
      }
      RowMissing(rows, block, talker);
      if |rows| >= CONST_MAX {
        return -1;
      }
      rows := rows + [Row(talker, NONE, 0, 0, NONE, [])];
    }

    // A sentence that changes no table: of a formatter that is counted, not parsed, or of a talker that found
    // no room.
    method Ignore(s: Sentence)
      requires Shaped(s) && Tables(rows, sats, satsUsed, block + [s])
      modifies `ignored, `block
      ensures Valid() && block == old(block) + [s]
    {
      ignored := ignored + 1;
      block := block + [s];
    }

    method NoteView(s: Sentence, slot: nat, ghost ts: seq<string>, ghost seen: seq<Seen>)
      requires s.form == Form.Gsv && Shaped(s) && Distinct(ts) && slot < |ts| && ts[slot] == s.talker
      requires RowsFor(rows, ts, block, seen)
      modifies `rows, `block
      ensures RowsFor(rows, ts, block, seen) && block == old(block) + [s]
    {
      var r := rows[slot];
      var visible := NmeaInt(s.fields[3]);
      var best := if visible != NONE && (r.visible == NONE || visible > r.visible) then visible else r.visible;
      var counted := Row(r.talker, best, r.parsed, r.inFix, r.snrBest, r.used);
      HeardGsv(r, block, s, best);
      RowReplaced(rows, ts, block, s, seen, slot, counted);
      rows := rows[slot := counted];
      block := block + [s];
    }

    method Gsv(s: Sentence)
      requires Valid() && s.form == Form.Gsv && Shaped(s)
      modifies `rows, `sats, `ignored, `block
      ensures Valid() && block == old(block) + [s]
    {
      var slot := Slot(s.talker);
      ghost var ts, seen := Enter(Talkers(block), s.talker), Sats(block);
      WiderTable(sats, Talkers(block), s.talker, seen);
      if slot < 0 {
        Unmoved(rows, sats, block, s);
        Ignore(s);
      } else {
        GsvHeard(s, slot, ts, seen);
      }
    }

    method GsvHeard(s: Sentence, slot: nat, ghost ts: seq<string>, ghost seen: seq<Seen>)
      requires s.form == Form.Gsv && Shaped(s) && slot < |ts| && ts[slot] == s.talker
      requires ts == Enter(Talkers(block), s.talker) && seen == Sats(block)
      requires Agrees(ts, seen) && satsUsed == SatsUsed(block)
      modifies `rows, `sats, `block
      ensures Valid() && block == old(block) + [s]
    {
      ghost var ss := block;
      EnterDistinct(ss, s.talker);
      GsvRow(s, slot, ts, seen);
      SettledView(rows, sats, satsUsed, ss, s, ts);
    }

    method GsvRow(s: Sentence, slot: nat, ghost ts: seq<string>, ghost seen: seq<Seen>)
      requires s.form == Form.Gsv && Shaped(s) && slot < |ts| && ts[slot] == s.talker
      requires Agrees(ts, seen) && Distinct(ts) && |seen| <= SAT_MAX
      modifies `rows, `sats, `block
      ensures Agrees(ts, Take(seen + Sights(s), SAT_MAX)) && block == old(block) + [s]
    {
      NoteView(s, slot, ts, seen);
      AddQuads(slot, s.fields, ts, seen, Sights(s));
    }

    // The loop over the groups of four, while four whole fields remain: each becomes a satellite until the
    // table is full.
    method AddQuads(slot: nat, fields: seq<string>, ghost ts: seq<string>, ghost seen: seq<Seen>,
                    ghost sights: seq<Seen>)
      requires |fields| >= 4 && slot < |ts| && Distinct(ts) && |seen| <= SAT_MAX
      requires Agrees(ts, seen) && sights == Tagged(ts[slot], QuadsFrom(fields, 4))
      modifies `rows, `sats
      ensures Agrees(ts, Take(seen + sights, SAT_MAX))
    {
      ghost var sofar, rest := seen, sights;
      ghost var goal := Take(seen + rest, SAT_MAX);
      var at := 4;
      while at + 4 <= |fields|
        invariant 4 <= at <= |fields|
        invariant Agrees(ts, sofar) && ToGo(ts[slot], fields, at, sofar, rest, goal)
      {
        if |sats| >= SAT_MAX {
          break;
        }
        sofar, rest := AddQuad(slot, fields, at, ts, sofar, rest, goal);
        at := at + 4;
      }
      NothingToGo(ts[slot], fields, at, sofar, rest, goal);
    }

    method AddQuad(slot: nat, fields: seq<string>, at: nat, ghost ts: seq<string>, ghost sofar: seq<Seen>,
                   ghost rest: seq<Seen>, ghost goal: seq<Seen>)
      returns (ghost more: seq<Seen>, ghost left: seq<Seen>)
      requires slot < |ts| && Distinct(ts) && Agrees(ts, sofar) && at + 4 <= |fields| && |sats| < SAT_MAX
      requires ToGo(ts[slot], fields, at, sofar, rest, goal)
      modifies `rows, `sats
      ensures Agrees(ts, more) && ToGo(ts[slot], fields, at + 4, more, left, goal)
    {
      var quad := QuadAt(fields, at);
      TaggedNext(ts[slot], fields, at);
      left := Tagged(ts[slot], QuadsFrom(fields, at + 4));
      AddOne(sofar, Seen(ts[slot], quad), left, goal);
      AddSat(slot, quad, ts, sofar);
      more := sofar + [Seen(ts[slot], quad)];
    }

    ghost predicate Agrees(ts: seq<string>, seen: seq<Seen>)
      reads this
    {
      RowsFor(rows, ts, block, seen) && SatsFor(sats, ts, seen)
    }

    method AddSat(slot: nat, quad: Quad, ghost ts: seq<string>, ghost seen: seq<Seen>)
      requires slot < |ts| && Distinct(ts) && Agrees(ts, seen)
      modifies `rows, `sats
      ensures Agrees(ts, seen + [Seen(ts[slot], quad)])
    {
      var r := rows[slot];
      sats := sats + [Sat(slot, quad, false)];
      var best := r.snrBest;
      if quad.snr != NONE && (r.snrBest == NONE || quad.snr > r.snrBest) {
        best := quad.snr;
      }
      var grown := Row(r.talker, r.visible, r.parsed + 1, r.inFix, best, r.used);
      SeenGrows(rows, ts, block, seen, Seen(ts[slot], quad), slot, grown);
      rows := rows[slot := grown];
    }

    method Gsa(s: Sentence)
      requires Valid() && s.form == Form.Gsa
      modifies `rows, `satsUsed, `ignored, `badShape, `block
      ensures Valid() && block == old(block) + [s]
    {
      var slot := Slot(s.talker);
      ghost var ts := Enter(Talkers(block), s.talker);
      WiderTable(sats, Talkers(block), s.talker, Sats(block));
      if slot < 0 {
        Unmoved(rows, sats, block, s);
        Ignore(s);
      } else if |s.fields| < 5 {
        badShape := badShape + 1;
        NotePrns(s, slot, rows[slot].used, 0, ts);
      } else {
        var used, count := AddPrns(rows[slot].used, s.fields, Listed(block, s.talker));
        NotePrns(s, slot, used, count, ts);
      }
    }

    // The talker's PRN list, its length as the number in the fix, and the count of all that are used.
    method NotePrns(s: Sentence, slot: nat, used: seq<int>, count: nat, ghost ts: seq<string>)
      requires s.form == Form.Gsa && slot < |ts| && ts[slot] == s.talker
      requires ts == Enter(Talkers(block), s.talker) && Agrees(ts, Sats(block)) && satsUsed == SatsUsed(block)
      requires used == Take(Listed(block, s.talker) + Lists(s), USED_MAX) && count == |Lists(s)|
      modifies `rows, `satsUsed, `block
      ensures Valid() && block == old(block) + [s]
    {
      ghost var ss, seen := block, Sats(block);
      EnterDistinct(ss, s.talker);
      NoSights(seen);
      NoteUsed(s, slot, used, ts, seen);
      satsUsed := satsUsed + count;
      Settled(rows, sats, ss, s, ts, seen);
    }

    method NoteUsed(s: Sentence, slot: nat, used: seq<int>, ghost ts: seq<string>, ghost seen: seq<Seen>)
      requires s.form == Form.Gsa && Distinct(ts) && slot < |ts| && ts[slot] == s.talker
      requires RowsFor(rows, ts, block, seen) && used == Take(Listed(block, s.talker) + Lists(s), USED_MAX)
      modifies `rows, `block
      ensures RowsFor(rows, ts, block, seen) && block == old(block) + [s]
    {
      var r := rows[slot];
      var listed := Row(r.talker, r.visible, r.parsed, |used|, r.snrBest, used);
      HeardGsa(r, block, s, used);
      RowReplaced(rows, ts, block, s, seen, slot, listed);
      rows := rows[slot := listed];
      block := block + [s];
    }

    // gnss_sentence's dispatch.
    method Read(s: Sentence)
      requires Valid() && Shaped(s)
      modifies `rows, `sats, `satsUsed, `ignored, `badShape, `block
      ensures Valid() && block == old(block) + [s]
    {
      match s.form
      case Gsv => Gsv(s);
      case Gsa => Gsa(s);
      case Other =>
        Unmoved(rows, sats, block, s);
        Ignore(s);
    }

    // gnss_link_fix: the two halves of the block folded together.
    method LinkFix()
      requires Valid()
      modifies `sats, `visibleTotal, `snrBest
      ensures Valid()
      ensures visibleTotal == VisibleTotal(block) && snrBest == SnrBest(block)
      ensures forall j :: 0 <= j < |sats| ==> sats[j].inFix == InFix(block, Sats(block)[j])
    {
      var total, best := SumRows();
      FlagSats();
      visibleTotal := total;
      snrBest := best;
    }

    method SumRows() returns (total: int, best: int)
      requires Valid()
      ensures total == VisibleTotal(block) && best == SnrBest(block)
    {
      total, best := 0, NONE;
      ghost var ts := Talkers(block);
      var i := 0;
      SummedNone(rows, ts, block);
      while i < |rows|
        invariant i <= |rows| && Summed(rows, ts, block, i, total, best)
      {
        SummedNext(rows, ts, block, Sats(block), i, total, best);
        if rows[i].visible != NONE {
          total := total + rows[i].visible;
        }
        if rows[i].snrBest != NONE && (best == NONE || rows[i].snrBest > best) {
          best := rows[i].snrBest;
        }
        i := i + 1;
      }
      SummedAll(rows, block, sats, total, best);
    }

    method FlagSats()
      requires Valid()
      modifies `sats
      ensures Valid()
      ensures forall j :: 0 <= j < |sats| ==> sats[j].inFix == InFix(block, Sats(block)[j])
    {
      ghost var ts, seen := Talkers(block), Sats(block);
      var j := 0;
      while j < |sats|
        invariant j <= |sats| && SatsFor(sats, ts, seen)
        invariant forall i :: 0 <= i < j ==> sats[i].inFix == InFix(block, seen[i])
      {
        var s := sats[j];
        assert HeardBy(rows[s.slot], block) && seen[j] == Seen(ts[s.slot], s.quad);
        var listed := HasPrn(rows[s.slot].used, s.quad.prn);
        sats := sats[j := Sat(s.slot, s.quad, listed)];
        j := j + 1;
      }
    }
  }

  method HasPrn(used: seq<int>, prn: int) returns (found: bool)
    ensures found <==> prn in used
  {
    var k := 0;
    while k < |used|
      invariant k <= |used| && prn !in used[..k]
    {
      if used[k] == prn {
        return true;
      }
      k := k + 1;
    }
    assert used[..k] == used;
    found := false;
  }

  // ---- the totals ----

  lemma TotalNext(ts: seq<string>, t: string, ss: Block)
    ensures Total(ts + [t], ss) == Total(ts, ss) + Worth(Best(InView(ss, t)))
  {
    assert (ts + [t])[..|ts|] == ts;
  }

  function Signals(rows: seq<Row>): seq<int> { seq(|rows|, i requires 0 <= i < |rows| => rows[i].snrBest) }

  // The sums over the first i rows.
  ghost predicate Summed(rows: seq<Row>, ts: seq<string>, ss: Block, i: nat, total: int, best: int) {
    && i <= |rows| && i <= |ts|
    && total == Total(ts[..i], ss) && best == Best(Signals(rows[..i]))
  }

  lemma SummedNone(rows: seq<Row>, ts: seq<string>, ss: Block)
    ensures Summed(rows, ts, ss, 0, 0, NONE)
  {
  }

  lemma SummedNext(rows: seq<Row>, ts: seq<string>, ss: Block, seen: seq<Seen>, i: nat, total: int, best: int)
    requires RowsFor(rows, ts, ss, seen) && Summed(rows, ts, ss, i, total, best) && i < |rows|
    ensures Summed(rows, ts, ss, i + 1, total + Worth(rows[i].visible), Raise(best, rows[i].snrBest))
  {
    assert HeardBy(rows[i], ss);
    TotalAt(ts, ss, i);
    SignalsNext(rows, i);
  }

  lemma TotalAt(ts: seq<string>, ss: Block, i: nat)
    requires i < |ts|
    ensures Total(ts[..i + 1], ss) == Total(ts[..i], ss) + Worth(Best(InView(ss, ts[i])))
  {
    assert ts[..i + 1] == ts[..i] + [ts[i]];
    TotalNext(ts[..i], ts[i], ss);
  }

  lemma SignalsNext(rows: seq<Row>, i: nat)
    requires i < |rows|
    ensures Best(Signals(rows[..i + 1])) == Raise(Best(Signals(rows[..i])), rows[i].snrBest)
  {
    assert Signals(rows[..i + 1]) == Signals(rows[..i]) + [rows[i].snrBest];
    BestNext(Signals(rows[..i]), rows[i].snrBest);
  }

  // Every satellite's signal is among its talker's, and every one of those is a satellite's.
  lemma {:induction false} OwnSnr(seen: seq<Seen>, j: nat)
    requires j < |seen|
    ensures seen[j].quad.snr in SnrsOf(seen, seen[j].talker)
  {
    if j < |seen| - 1 { OwnSnr(seen[..|seen| - 1], j); }
  }

  lemma {:induction false} SnrsOfIn(seen: seq<Seen>, t: string, v: int) returns (j: nat)
    requires v in SnrsOf(seen, t)
    ensures j < |seen| && seen[j].quad.snr == v
  {
    var last := |seen| - 1;
    if seen[last].talker == t && seen[last].quad.snr == v {
      j := last;
    } else {
      j := SnrsOfIn(seen[..last], t, v);
    }
  }

  lemma BestBounds(values: seq<int>, v: int)
    requires v in values && v != NONE
    ensures Best(values) != NONE && v <= Best(values)
  {
    BestIs(values);
    assert v in multiset(values);
  }

  lemma BestUnique(b: int, values: seq<int>)
    requires b != NONE ==> b in values
    requires forall i :: 0 <= i < |values| && values[i] != NONE ==> b != NONE && values[i] <= b
    ensures b == Best(values)
  {
    BestIs(values);
    if b != NONE { BestBounds(values, b); }
  }

  // The best of the rows is the best of all satellites, as every satellite belongs to a row.
  lemma RowsCover(rows: seq<Row>, ts: seq<string>, ss: Block, seen: seq<Seen>, sats: seq<Sat>)
    requires RowsFor(rows, ts, ss, seen) && SatsFor(sats, ts, seen)
    ensures Best(Signals(rows)) == Best(Snrs(seen))
  {
    var best := Best(Signals(rows));
    forall j | 0 <= j < |seen| && Snrs(seen)[j] != NONE ensures best != NONE && Snrs(seen)[j] <= best {
      RowAbove(rows, ts, ss, seen, sats, j);
    }
    if best != NONE {
      BestIs(Signals(rows));
      var i :| 0 <= i < |rows| && Signals(rows)[i] == best;
      assert SeenBy(rows[i], seen);
      BestIs(SnrsOf(seen, ts[i]));
      var j := SnrsOfIn(seen, ts[i], best);
      assert Snrs(seen)[j] == best;
    }
    BestUnique(best, Snrs(seen));
  }

  lemma SummedAll(rows: seq<Row>, ss: Block, sats: seq<Sat>, total: int, best: int)
    requires RowsFor(rows, Talkers(ss), ss, Sats(ss)) && SatsFor(sats, Talkers(ss), Sats(ss))
    requires Summed(rows, Talkers(ss), ss, |rows|, total, best)
    ensures total == VisibleTotal(ss) && best == SnrBest(ss)
  {
    assert Talkers(ss)[..|rows|] == Talkers(ss) && rows[..|rows|] == rows;
    RowsCover(rows, Talkers(ss), ss, Sats(ss), sats);
  }

  lemma RowAbove(rows: seq<Row>, ts: seq<string>, ss: Block, seen: seq<Seen>, sats: seq<Sat>, j: nat)
    requires RowsFor(rows, ts, ss, seen) && SatsFor(sats, ts, seen) && j < |seen| && seen[j].quad.snr != NONE
    ensures Best(Signals(rows)) != NONE && seen[j].quad.snr <= Best(Signals(rows))
  {
    var i := sats[j].slot;
    assert SeenBy(rows[i], seen);
    OwnSnr(seen, j);
    BestBounds(SnrsOf(seen, ts[i]), seen[j].quad.snr);
    assert Signals(rows)[i] == rows[i].snrBest;
    BestBounds(Signals(rows), rows[i].snrBest);
  }
}

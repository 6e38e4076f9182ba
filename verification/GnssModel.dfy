/**
 * What a block of NMEA sentences says about the satellites (fm160d/src/cmds.c:2031-2142, 2155-2187,
 * 2382-2412). A sentence here is one that passed its checksum, cut into fields; everything below is read
 * off the whole block at once.
 */
module GnssModel {
  import opened Csv
  import opened Numerals

  const NONE := -1000000
  const CONST_MAX := 8
  const SAT_MAX := 32
  const USED_MAX := 12

  datatype Form = Gsv | Gsa | Other
  datatype Sentence = Sentence(talker: string, form: Form, fields: seq<string>)
  datatype Quad = Quad(prn: int, elev: int, azim: int, snr: int)
  datatype Seen = Seen(talker: string, quad: Quad)

  // ---- one sentence ----

  // The body up to each comma, the last of at most `limit` fields taking the rest as it is.
  function Pieces(s: string, limit: nat): seq<string>
    requires limit > 0
    decreases limit
  {
    if limit == 1 || CommaAt(s) == |s| then [s]
    else [s[..CommaAt(s)]] + Pieces(s[CommaAt(s) + 1..], limit - 1)
  }

  function Split(body: string, limit: nat): seq<string> {
    if body == "" || limit < 1 then [] else Pieces(body, limit)
  }

  // An empty field is "unknown".
  function NmeaInt(f: string): int { if f == "" then NONE else Atoi(f) }

  // The parser reads a GSV's fourth field from its end without asking whether there is one.
  predicate Shaped(s: Sentence) { s.form == Gsv ==> |s.fields| >= 4 }

  function QuadAt(fields: seq<string>, at: nat): Quad
    requires at + 4 <= |fields|
  {
    Quad(NmeaInt(fields[at]), NmeaInt(fields[at + 1]), NmeaInt(fields[at + 2]), NmeaInt(fields[at + 3]))
  }

  // Groups of four while four whole fields remain.
  function QuadsFrom(fields: seq<string>, at: nat): seq<Quad>
    decreases |fields| - at
  {
    if at + 4 <= |fields| then [QuadAt(fields, at)] + QuadsFrom(fields, at + 4) else []
  }

  function Tagged(talker: string, quads: seq<Quad>): seq<Seen> {
    if quads == [] then [] else [Seen(talker, quads[0])] + Tagged(talker, quads[1..])
  }

  function Known(fields: seq<string>): seq<int> {
    if fields == [] then []
    else (if NmeaInt(fields[0]) == NONE then [] else [NmeaInt(fields[0])]) + Known(fields[1..])
  }

  // The PRNs of a GSA stand between the first three fields and the last three.
  function Prns(fields: seq<string>): seq<int> {
    if |fields| <= 6 then [] else Known(fields[3..|fields| - 3])
  }

  // ---- what one sentence adds, whatever else is in the block ----

  predicate Speaks(s: Sentence) { s.form != Other }

  function Sights(s: Sentence): seq<Seen> {
    if s.form == Gsv then Tagged(s.talker, QuadsFrom(s.fields, 4)) else []
  }

  function Lists(s: Sentence): seq<int> { if s.form == Gsa then Prns(s.fields) else [] }

  function Counts(s: Sentence, talker: string): seq<int>
    requires Shaped(s)
  {
    if s.form == Gsv && s.talker == talker && NmeaInt(s.fields[3]) != NONE then [NmeaInt(s.fields[3])] else []
  }

  // ---- the block ----

  type Block = ss: seq<Sentence> | forall i :: 0 <= i < |ss| ==> Shaped(ss[i]) witness []

  function Front(ss: Block): Block
    requires ss != []
  {
    ss[..|ss| - 1]
  }

  function Last(ss: Block): Sentence
    requires ss != []
  {
    ss[|ss| - 1]
  }

  function Enter(talkers: seq<string>, talker: string): seq<string> {
    if talker in talkers || |talkers| >= CONST_MAX then talkers else talkers + [talker]
  }

  // The talkers that have a row, in the order they first spoke; the ninth and later get none.
  function Talkers(ss: Block): seq<string> {
    if ss == [] then [] else if Speaks(Last(ss)) then Enter(Talkers(Front(ss)), Last(ss).talker) else Talkers(Front(ss))
  }

  // Everything seen by talkers with a row.
  function Sighted(ss: Block): seq<Seen> {
    if ss == [] then []
    else Sighted(Front(ss)) + if Last(ss).talker in Talkers(ss) then Sights(Last(ss)) else []
  }

  // The PRNs that one talker lists as used, and its counts of satellites in view.
  function Listed(ss: Block, talker: string): seq<int> {
    if ss == [] then [] else Listed(Front(ss), talker) + if Last(ss).talker == talker then Lists(Last(ss)) else []
  }

  function InView(ss: Block, talker: string): seq<int> {
    if ss == [] then [] else InView(Front(ss), talker) + Counts(Last(ss), talker)
  }

  // The largest known value, or NONE.
  function Best(values: seq<int>): int {
    if values == [] then NONE else Raise(Best(values[..|values| - 1]), values[|values| - 1])
  }

  function Raise(best: int, value: int): int {
    if value != NONE && (best == NONE || value > best) then value else best
  }

  function Snrs(seen: seq<Seen>): seq<int> { seq(|seen|, i requires 0 <= i < |seen| => seen[i].quad.snr) }

  function Take<T>(s: seq<T>, n: nat): seq<T> { if |s| <= n then s else s[..n] }

  // ---- the results ----

  // The satellites kept, and the PRNs kept for a talker.
  function Sats(ss: Block): seq<Seen> { Take(Sighted(ss), SAT_MAX) }

  function Used(ss: Block, talker: string): seq<int> { Take(Listed(ss, talker), USED_MAX) }

  function InFix(ss: Block, seen: Seen): bool { seen.quad.prn in Used(ss, seen.talker) }

  function Worth(visible: int): int { if visible == NONE then 0 else visible }

  function Total(talkers: seq<string>, ss: Block): int {
    if talkers == [] then 0
    else Total(talkers[..|talkers| - 1], ss) + Worth(Best(InView(ss, talkers[|talkers| - 1])))
  }

  function VisibleTotal(ss: Block): int { Total(Talkers(ss), ss) }

  function SnrBest(ss: Block): int { Best(Snrs(Sats(ss))) }

  function SatsUsed(ss: Block): nat {
    if ss == [] then 0
    else SatsUsed(Front(ss)) + if Last(ss).talker in Talkers(ss) then |Lists(Last(ss))| else 0
  }
}

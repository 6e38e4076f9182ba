/** The reset ledger as text: the stamps are kept as one comma-joined string that is cut up in place. */
module LedgerText {
  import opened DialerModel
  import opened Csv
  import opened Numerals

  const BUFFER: nat := 192
  const LLONG_MAX: int := 0x7FFF_FFFF_FFFF_FFFF

  /** strtoll saturates. */
  function Strtoll(s: string): int {
    var n := Atoi(s);
    if n > LLONG_MAX then LLONG_MAX else if n < -LLONG_MAX - 1 then -LLONG_MAX - 1 else n
  }

  /** The numbers a stored string stands for. */
  function Fields(v: string): seq<int>
    decreases |v|
  {
    if v == "" then []
    else
      var c := CommaAt(v);
      if c == |v| then [Strtoll(v)] else [Strtoll(v[..c])] + Fields(v[c + 1..])
  }

  predicate Storable(stamps: seq<int>) { forall i | 0 <= i < |stamps| :: 0 < stamps[i] <= LLONG_MAX }

  // ---------------------------------------------------------------- what is stored is read back

  lemma FieldsAfter(p: string, rest: string)
    requires p != "" && forall i | 0 <= i < |p| :: p[i] != ','
    ensures Fields(p + "," + rest) == [Strtoll(p)] + Fields(rest)
  {
    var v := p + "," + rest;
    CommaAfter(p, "," + rest);
    assert v == p + ("," + rest);
    assert v[..|p|] == p && v[|p| + 1..] == rest;
  }

  function Clamped(ns: seq<int>): seq<int> {
    seq(|ns|, i requires 0 <= i < |ns| => if ns[i] > LLONG_MAX then LLONG_MAX else ns[i])
  }

  lemma StampReads(n: nat)
    ensures PrintInt(n) != "" && Strtoll(PrintInt(n)) == if n > LLONG_MAX then LLONG_MAX else n
  {
    AtoiReads(n, "");
    assert PrintInt(n) + "" == PrintInt(n);
  }

  /** Any line of natural numbers is read back in order, each one too large for the C type as its largest value. */
  lemma {:induction false} FieldsClamp(ns: seq<int>)
    requires Natural(ns)
    ensures Fields(Join(ns)) == Clamped(ns)
  {
    if ns != [] {
      var p, j := PrintInt(ns[0]), Join(ns);
      JoinSplits(ns);
      StampReads(ns[0]);
      assert Clamped(ns)[1..] == Clamped(ns[1..]);
      if |ns| > 1 {
        assert j == p + "," + j[|p| + 1..];
        NoComma(ns[0]);
        FieldsAfter(p, Join(ns[1..]));
        FieldsClamp(ns[1..]);
      }
    }
  }

  /** A restarted daemon reads back exactly the stamps that were written. */
  lemma FieldsOfJoin(stamps: seq<int>)
    requires Storable(stamps)
    ensures Fields(Join(stamps)) == stamps
  {
    FieldsClamp(stamps);
    assert Clamped(stamps) == stamps;
  }

  lemma StampLength(ts: int)
    requires 0 < ts <= LLONG_MAX
    ensures |PrintInt(ts)| <= 19
  {
    assert Pow(10, 5) == 100000 by {
      assert Pow(10, 0) == 1;
      assert Pow(10, 1) == 10;
      assert Pow(10, 2) == 100;
      assert Pow(10, 3) == 1000;
      assert Pow(10, 4) == 10000;
    }
    assert Pow(10, 7) == 10000000 by { assert Pow(10, 6) == 1000000; }
    assert Pow(10, 9) == 1000000000 by { assert Pow(10, 8) == 100000000; }
    assert Pow(10, 11) == 100000000000 by { assert Pow(10, 10) == 10000000000; }
    assert Pow(10, 13) == 10000000000000 by { assert Pow(10, 12) == 1000000000000; }
    assert Pow(10, 15) == 1000000000000000 by { assert Pow(10, 14) == 100000000000000; }
    assert Pow(10, 17) == 100000000000000000 by { assert Pow(10, 16) == 10000000000000000; }
    assert Pow(10, 19) == 10000000000000000000 by { assert Pow(10, 18) == 1000000000000000000; }
    PrintLength(ts, 10, 19);
  }

  // ---------------------------------------------------------------- the loops

  /** What follows the first field of a string. */
  function Rest(v: string): string { if CommaAt(v) == |v| then "" else v[CommaAt(v) + 1..] }

  function Head(v: string): int { Strtoll(v[..CommaAt(v)]) }

  lemma FieldsCons(v: string, n: nat)
    requires v != "" && n > 0
    ensures First(Fields(v), n) == [Head(v)] + First(Fields(Rest(v)), n - 1)
  {
    if CommaAt(v) == |v| { assert v[..|v|] == v; }
  }

  lemma KeptCons(cfg: Config, now: int, v: string, n: nat)
    requires v != "" && n > 0
    ensures Kept(cfg, now, First(Fields(v), n))
         == if Head(v) <= 0 || now - Head(v) >= cfg.window then []
            else [Head(v)] + Kept(cfg, now, First(Fields(Rest(v)), n - 1))
  {
    FieldsCons(v, n);
  }

  /** The counting loop of the load: at most eight fields, each cut off the front of the string. */
  method CountStamps(cfg: Config, now: int, stored: string) returns (count: nat)
    ensures count == CountInWindow(cfg, now, First(Fields(stored), LEDGER_MAX))
  {
    var v := stored;
    count := 0;
    for i := 0 to LEDGER_MAX
      invariant count + CountInWindow(cfg, now, First(Fields(v), LEDGER_MAX - i))
             == CountInWindow(cfg, now, First(Fields(stored), LEDGER_MAX))
    {
      if v == "" { return; }
      FieldsCons(v, LEDGER_MAX - i);
      if InWindow(cfg, now, Head(v)) { count := count + 1; }
      v := Rest(v);
    }
  }

  /** What a turn of the rewriting loop still has to keep. */
  ghost predicate Remaining(cfg: Config, now: int, v: string, n: nat, done: seq<int>, all: seq<int>) {
    all == done + Kept(cfg, now, First(Fields(v), n))
  }

  /** A list cut after `done` can be cut one element later. */
  lemma CutLater<T>(all: seq<T>, done: seq<T>, tail: seq<T>, x: T, rest: seq<T>)
    requires all == done + tail && tail == [x] + rest
    ensures all == done + [x] + rest
  {
  }

  lemma RemainingStep(cfg: Config, now: int, v: string, n: nat, done: seq<int>, all: seq<int>)
    requires v != "" && n > 0 && Remaining(cfg, now, v, n, done, all)
    ensures if Head(v) <= 0 || now - Head(v) >= cfg.window then all == done
            else Remaining(cfg, now, Rest(v), n - 1, done + [Head(v)], all)
  {
    KeptCons(cfg, now, v, n);
    if !(Head(v) <= 0 || now - Head(v) >= cfg.window) {
      var tail, rest := Kept(cfg, now, First(Fields(v), n)), Kept(cfg, now, First(Fields(Rest(v)), n - 1));
      CutLater(all, done, tail, Head(v), rest);
    }
  }

  lemma RemainingNone(cfg: Config, now: int, v: string, n: nat, done: seq<int>, all: seq<int>)
    requires (v == "" || n == 0) && Remaining(cfg, now, v, n, done, all)
    ensures all == done
  {
  }

  predicate Written(s: string, stamps: seq<int>) {
    stamps != [] && s == Join(stamps) && |s| <= 20 * |stamps|
  }

  lemma FirstPiece(ts: int)
    requires 0 < ts <= LLONG_MAX
    ensures Written(PrintInt(ts), [ts])
  {
    StampLength(ts);
    assert Printed([ts]) == [PrintInt(ts)];
  }

  lemma PieceFits(s: string, stamps: seq<int>, ts: int)
    requires Written(s, stamps) && 0 < ts <= LLONG_MAX
    ensures Written(s + "," + PrintInt(ts), stamps + [ts])
  {
    JoinAppend(stamps, ts);
    StampLength(ts);
  }

  /** The rewriting loop: the newest stamp in front, then the stored ones up to the first that is out of the
      window, at most seven of them.  They always fit the buffer, so the truncation the C code guards
      against never happens. */
  method NewStamps(cfg: Config, now: int, stored: string) returns (stamps: string)
    requires 0 < now <= LLONG_MAX
    ensures stamps == Join([now] + Kept(cfg, now, First(Fields(stored), LEDGER_MAX - 1)))
    ensures |stamps| < BUFFER
  {
    var v := stored;
    stamps := PrintInt(now);
    FirstPiece(now);
    ghost var done: seq<int> := [now];
    ghost var all := [now] + Kept(cfg, now, First(Fields(stored), LEDGER_MAX - 1));
    for i := 0 to LEDGER_MAX - 1
      invariant Written(stamps, done) && |done| == i + 1
      invariant Remaining(cfg, now, v, LEDGER_MAX - 1 - i, done, all)
    {
      if v == "" {
        RemainingNone(cfg, now, v, LEDGER_MAX - 1 - i, done, all);
        return;
      }
      RemainingStep(cfg, now, v, LEDGER_MAX - 1 - i, done, all);
      var ts := Head(v);
      if ts <= 0 || now - ts >= cfg.window { return; }
      PieceFits(stamps, done, ts);
      stamps := stamps + "," + PrintInt(ts);
      done := done + [ts];
      v := Rest(v);
    }
    RemainingNone(cfg, now, v, 0, done, all);
  }
}

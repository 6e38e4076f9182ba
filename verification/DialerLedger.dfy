/** The limit on module resets, over any number of daemon restarts. */
module DialerLedger {
  import opened DialerModel
  import opened Options

  // ---------------------------------------------------------------- the invariant

  predicate Ascending(times: seq<int>) { forall i, j | 0 <= i < j < |times| :: times[i] <= times[j] }

  /** How many of `times` lie less than one window before `now`. */
  function Recent(times: seq<int>, now: int, window: nat): nat {
    if times == [] then 0
    else Recent(times[..|times| - 1], now, window) + if now - times[|times| - 1] < window then 1 else 0
  }

  /** The ledger holds the latest resets, newest first; what it has lost is out of the window or beyond eight. */
  ghost predicate Records(cfg: Config, s: seq<int>, times: seq<int>) {
    && |s| <= |times| && |s| <= LEDGER_MAX
    && (forall k | 0 <= k < |s| :: s[k] == times[|times| - 1 - k])
    && (|s| < LEDGER_MAX && |s| < |times| ==> times[|times| - 1] - times[|times| - 1 - |s|] >= cfg.window)
    && (times != [] ==> s != [])
  }

  /** Any two resets that are `limit` or more apart in the order of time are at least one window apart. */
  ghost predicate Spaced(cfg: Config, times: seq<int>) {
    forall i, j | 0 <= i && i + cfg.limit <= j < |times| :: times[j] - times[i] >= cfg.window
  }

  predicate Dated(times: seq<int>, clock: int) { forall i | 0 <= i < |times| :: 0 < times[i] <= clock }

  ghost predicate Inv(cfg: Config, h: Host, times: seq<int>, clock: int) {
    && Ascending(times) && Dated(times, clock)
    && Records(cfg, Stamps(h.ledger), times)
    && Spaced(cfg, times)
    && (h.d.t.inWindow >= cfg.limit || h.d.t.inWindow >= Recent(times, clock, cfg.window))
  }

  // ---------------------------------------------------------------- counting

  lemma {:induction false} RecentShrinks(times: seq<int>, now: int, later: int, window: nat)
    requires now <= later
    ensures Recent(times, later, window) <= Recent(times, now, window)
  {
    if times != [] { RecentShrinks(times[..|times| - 1], now, later, window); }
  }

  /** Ascending times: if the one `k` from the end is out of the window, fewer than `k + 1` are recent. */
  lemma {:induction false} RecentBelow(times: seq<int>, now: int, window: nat, k: nat)
    requires Ascending(times) && k < |times| && now - times[|times| - 1 - k] >= window
    ensures Recent(times, now, window) <= k
  {
    var n := |times| - 1;
    if k == 0 {
      RecentNone(times, now, window);
    } else {
      RecentBelow(times[..n], now, window, k - 1);
    }
  }

  lemma {:induction false} RecentNone(times: seq<int>, now: int, window: nat)
    requires Ascending(times) && (times == [] || now - times[|times| - 1] >= window)
    ensures Recent(times, now, window) == 0
  {
    if times != [] { RecentNone(times[..|times| - 1], now, window); }
  }

  lemma {:induction false} RecentAtMost(times: seq<int>, now: int, window: nat)
    ensures Recent(times, now, window) <= |times|
  {
    if times != [] { RecentAtMost(times[..|times| - 1], now, window); }
  }

  /** Fewer recent ones than `k + 1`: the one `k` from the end is out of the window. */
  lemma {:induction false} OutOfWindow(times: seq<int>, now: int, window: nat, k: nat)
    requires Ascending(times) && k < |times| && Recent(times, now, window) <= k
    ensures now - times[|times| - 1 - k] >= window
  {
    var n := |times| - 1;
    if k > 0 && now - times[n] < window {
      OutOfWindow(times[..n], now, window, k - 1);
    } else if k > 0 {
      assert times[n - k] <= times[n];
    }
  }

  /** Counting the stamps of the ledger finds every recent reset, up to the ledger's length. */
  lemma {:induction false} CountFinds(cfg: Config, now: int, stamps: seq<int>, times: seq<int>)
    requires Ascending(times) && Dated(times, now)
    requires |stamps| <= |times| && forall k | 0 <= k < |stamps| :: stamps[k] == times[|times| - 1 - k]
    ensures var c := CountInWindow(cfg, now, stamps);
            var r := Recent(times, now, cfg.window);
            c == if r < |stamps| then r else |stamps|
  {
    if stamps != [] {
      var n := |times| - 1;
      CountFinds(cfg, now, stamps[1..], times[..n]);
      if now - times[n] >= cfg.window { RecentNone(times, now, cfg.window); RecentNone(times[..n], now, cfg.window); }
    }
  }

  lemma LoadCounts(cfg: Config, now: int, ledger: Ledger, times: seq<int>)
    requires cfg.limit <= LEDGER_MAX && Ascending(times) && Dated(times, now) && Records(cfg, Stamps(ledger), times)
    ensures var c := Load(cfg, BLANK, ledger, now).t.inWindow;
            c >= cfg.limit || c >= Recent(times, now, cfg.window)
  {
    var s := Stamps(ledger);
    CountFinds(cfg, now, s, times);
    assert First(s, LEDGER_MAX) == s;
    if |s| < LEDGER_MAX && |s| < |times| {
      RecentBelow(times, now, cfg.window, |s|);
    } else if |s| == |times| {
      RecentAtMost(times, now, cfg.window);
    }
  }

  ghost function InForce(stamps: seq<int>, now: int, window: int): set<int> {
    set i | 0 <= i < |stamps| && 0 < stamps[i] <= now && now - stamps[i] < window
  }

  lemma InForceLast(stamps: seq<int>, now: int, window: int)
    requires stamps != []
    ensures var n := |stamps| - 1;
      |InForce(stamps, now, window)|
        == |InForce(stamps[..n], now, window)| + if 0 < stamps[n] <= now && now - stamps[n] < window then 1 else 0
  {
    var n := |stamps| - 1;
    var before := InForce(stamps[..n], now, window);
    assert InForce(stamps, now, window)
        == if 0 < stamps[n] <= now && now - stamps[n] < window then before + {n} else before;
  }

  lemma {:induction false} CountIsSize(cfg: Config, now: int, stamps: seq<int>)
    ensures CountInWindow(cfg, now, stamps) == |InForce(stamps, now, cfg.window)|
  {
    if stamps != [] {
      CountIsSize(cfg, now, stamps[..|stamps| - 1]);
      CountLast(cfg, now, stamps);
      InForceLast(stamps, now, cfg.window);
    }
  }

  lemma {:induction false} CountLast(cfg: Config, now: int, stamps: seq<int>)
    requires stamps != []
    ensures var n := |stamps| - 1;
      CountInWindow(cfg, now, stamps)
        == CountInWindow(cfg, now, stamps[..n]) + if InWindow(cfg, now, stamps[n]) then 1 else 0
  {
    if |stamps| > 1 {
      CountLast(cfg, now, stamps[1..]);
      assert stamps[1..][..|stamps| - 2] == stamps[..|stamps| - 1][1..];
    }
  }

  /** A daemon that starts counts, of the first eight stamps stored, whatever they are, the ones that are set, not in
      the future, and younger than the window. */
  lemma LoadCountsExactly(cfg: Config, d: Dial, ledger: Ledger, now: int)
    ensures var s := Stamps(ledger);
      Load(cfg, d, ledger, now).t.inWindow == |InForce(if |s| <= 8 then s else s[..8], now, cfg.window)|
  {
    CountIsSize(cfg, now, First(Stamps(ledger), LEDGER_MAX));
  }

  // ---------------------------------------------------------------- noting a reset

  lemma {:induction false} KeptPrefix(cfg: Config, now: int, stamps: seq<int>) returns (k: nat)
    ensures k <= |stamps| && Kept(cfg, now, stamps) == stamps[..k]
    ensures k < |stamps| ==> stamps[k] <= 0 || now - stamps[k] >= cfg.window
  {
    k := 0;
    if stamps != [] && stamps[0] > 0 && now - stamps[0] < cfg.window {
      var m := KeptPrefix(cfg, now, stamps[1..]);
      k := m + 1;
      assert stamps[..k] == [stamps[0]] + stamps[1..][..m];
    }
  }

  lemma NoteRecords(cfg: Config, ledger: Ledger, times: seq<int>, now: int, total: int)
    requires Ascending(times) && Dated(times, now) && now > 0 && Records(cfg, Stamps(ledger), times)
    ensures Records(cfg, Stamps(Note(cfg, ledger, [now], total)), times + [now])
  {
    var f := First(Stamps(ledger), LEDGER_MAX - 1);
    var k := KeptPrefix(cfg, now, f);
    NotedRecords(cfg, Stamps(ledger), times, now, k);
  }

  lemma NotedRecords(cfg: Config, s: seq<int>, times: seq<int>, now: int, k: nat)
    requires Ascending(times) && Dated(times, now) && now > 0 && Records(cfg, s, times)
    requires var f := First(s, LEDGER_MAX - 1);
             k <= |f| && (k < |f| ==> f[k] <= 0 || now - f[k] >= cfg.window)
    ensures Records(cfg, [now] + First(s, LEDGER_MAX - 1)[..k], times + [now])
  {
    NoteMatches(s, times, now, k);
    NoteLoses(cfg, s, times, now, k);
  }

  lemma NoteMatches(s: seq<int>, times: seq<int>, now: int, k: nat)
    requires |s| <= |times| && k <= |First(s, LEDGER_MAX - 1)|
    requires forall j | 0 <= j < |s| :: s[j] == times[|times| - 1 - j]
    ensures var t := times + [now];
            var s' := [now] + First(s, LEDGER_MAX - 1)[..k];
            forall j | 0 <= j < |s'| :: s'[j] == t[|t| - 1 - j]
  {
    var s', t := [now] + First(s, LEDGER_MAX - 1)[..k], times + [now];
    forall j | 0 <= j < |s'| ensures s'[j] == t[|t| - 1 - j] {
      if j > 0 { assert s'[j] == s[j - 1]; }
    }
  }

  lemma NoteLoses(cfg: Config, s: seq<int>, times: seq<int>, now: int, k: nat)
    requires Dated(times, now) && Records(cfg, s, times)
    requires var f := First(s, LEDGER_MAX - 1);
             k <= |f| && (k < |f| ==> f[k] <= 0 || now - f[k] >= cfg.window)
    ensures k + 1 < LEDGER_MAX && k < |times| ==> now - times[|times| - 1 - k] >= cfg.window
  {
    if k + 1 < LEDGER_MAX && k < |times| {
      if k < |First(s, LEDGER_MAX - 1)| {
        assert s[k] == times[|times| - 1 - k];
      } else {
        assert |s| == k && times[|times| - 1] <= now;
      }
    }
  }

  lemma SpacedPlus(cfg: Config, times: seq<int>, now: int)
    requires Ascending(times) && Spaced(cfg, times) && Recent(times, now, cfg.window) < cfg.limit
    ensures Spaced(cfg, times + [now])
  {
    if |times| >= cfg.limit {
      OutOfWindow(times, now, cfg.window, cfg.limit - 1);
    }
    forall i, j | 0 <= i && i + cfg.limit <= j < |times + [now]|
      ensures (times + [now])[j] - (times + [now])[i] >= cfg.window
    {
      if j == |times| { assert times[i] <= times[|times| - cfg.limit]; }
    }
  }

  // ---------------------------------------------------------------- one step

  /** The wall-clock time an event reads, if it reads any. */
  function WallOf(e: Event, clock: int): int {
    match e
    case Ticked(env, _) => env.wall
    case Rebooted(wall) => wall
    case _ => clock
  }

  /** A step makes at most one reset, counts it, and only makes it below the limit. */
  ghost predicate Counts(cfg: Config, d: Dial, o: Out, wall: int) {
    || (o.resets == [] && o.d.t.inWindow == d.t.inWindow)
    || (o.resets == [wall] && o.d.t.inWindow == d.t.inWindow + 1 && d.t.inWindow < cfg.limit)
  }

  lemma FailCounts(cfg: Config, d: Dial, env: Env)
    ensures Counts(cfg, d, Fail(cfg, d, env), env.wall)
  {
    if d.t.attempt < |cfg.ladder| {
    } else if ResetAllowed(cfg, Fallen(d)) {
    } else {
    }
  }

  /** A step that makes no reset and leaves the count alone. */
  predicate Silent(d: Dial, o: Out) { o.resets == [] && o.d.t.inWindow == d.t.inWindow }

  lemma ReplyCounts(cfg: Config, d: Dial, env: Env, cmd: Command, r: Reply)
    ensures Counts(cfg, d, OnReply(cfg, d, env, cmd, r), env.wall)
  {
    var a := Answer(d);
    match cmd
    case QueryPin =>
      if r.status == Ok && r.cpin == 1 { assert Silent(d, OnPin(cfg, d, env, r)); } else { FailCounts(cfg, a, env); }
    case QueryReg(_) =>
      if r.status == Ok && (r.reg == 1 || r.reg == 5) { assert Silent(d, OnReg(cfg, d, env, r)); }
      else if d.r.sub + 1 < REG_SUBS { assert Silent(d, OnReg(cfg, d, env, r)); }
      else { FailCounts(cfg, NextDomain(a), env); }
    case SetApn => if r.status == Ok { assert Silent(d, OnApn(cfg, d, env, r)); } else { FailCounts(cfg, a, env); }
    case Probe(v) =>
      if r.status == Ok || v == 0 { assert Silent(d, OnProbe(cfg, d, env, r, v)); } else { FailCounts(cfg, a, env); }
    case DoActivate =>
      if Inactive(r) { FailCounts(cfg, a, env); } else { assert Silent(d, OnActivate(cfg, d, env, r)); }
    case ReadContext => IpCounts(cfg, d, env, r);
    case _ =>
  }

  lemma IpCounts(cfg: Config, d: Dial, env: Env, r: Reply)
    ensures Counts(cfg, d, OnIp(cfg, d, env, r), env.wall)
  {
    var a := Answer(d);
    if Addressed(r) { assert Silent(d, OnIp(cfg, d, env, r)); }
    else if Readable(r) && (r.wwan.value.active == 0 || r.wwan.value.hasAddr) { FailCounts(cfg, a, env); }
    else if d.r.ipPolls + 1 < IP_MAX_POLLS { assert Silent(d, OnIp(cfg, d, env, r)); }
    else { FailCounts(cfg, Polled(a), env); }
  }

  lemma StuckCounts(cfg: Config, d: Dial, env: Env, fate: Fate)
    ensures Counts(cfg, d, Stuck(cfg, d, env, fate), env.wall)
  {
    if d.r.step == Reg || (d.r.step == Activate && d.r.verb < 0) { FailCounts(cfg, Rewound(d), env); }
    else if d.r.step == Activate && !d.r.wasUp { FailCounts(cfg, d, env); }
    else if d.r.step == Activate {
      assert Silent(d, Quietly(Unmarked(d)));
      assert Silent(d, Quietly(At(Unmarked(d), env.now + REACTIVATE_MS)));
    } else if d.r.step == Apn {
      assert Silent(d, Quietly(StopHealing(Misconfigured(d))));
    }
  }

  lemma TickCounts(cfg: Config, d: Dial, env: Env, fate: Fate)
    ensures Counts(cfg, d, Tick(cfg, d, env, fate), env.wall)
  {
    if env.enabled {
      var s := SyncKind(d, env);
      var t := if AutostartDue(s) then StartDial(Autostarted(s), env) else s;
      assert t.t.inWindow == d.t.inWindow;
      if GateOpen(t, env) {
        match Due(t, env)
        case Some(cmd) =>
          if fate.Answered? { ReplyCounts(cfg, Busying(t), env, cmd, fate.reply); }
        case None => StuckCounts(cfg, t, env, fate);
      }
    }
  }

  lemma StopCounts(cfg: Config, d: Dial, env: Env, fate: Fate, wall: int)
    ensures Counts(cfg, d, StopDial(d, env, fate), wall)
  {
    if !d.w.wanted && d.r.step == Down {
    } else if d.r.verb < 0 || !env.activateBuilds {
      assert Silent(d, Quietly(Unwanted(d)));
    } else {
      match fate
      case Rejected => assert Silent(d, Quietly(At(Answer(Unwanted(d)), env.later + RESUBMIT_MS)));
      case Lost => assert Silent(d, Quietly(Busying(Unwanted(d))));
      case Answered(_) => assert Silent(d, Quietly(OnDown(Unwanted(d))));
    }
  }

  lemma ApplyCounts(cfg: Config, h: Host, e: Event, clock: int)
    requires !e.Rebooted?
    ensures Counts(cfg, h.d, Apply(cfg, h, e), WallOf(e, clock))
  {
    match e
    case Ticked(env, fate) => TickCounts(cfg, h.d, env, fate);
    case Stopped(env, fate) => StopCounts(cfg, h.d, env, fate, clock);
    case _ =>
  }

  lemma StepKeeps(cfg: Config, h: Host, e: Event, times: seq<int>, clock: int)
    requires cfg.limit <= LEDGER_MAX && Inv(cfg, h, times, clock) && 0 < clock <= WallOf(e, clock)
    ensures Inv(cfg, After(cfg, h, e), times + Apply(cfg, h, e).resets, WallOf(e, clock))
  {
    var wall := WallOf(e, clock);
    RecentShrinks(times, clock, wall, cfg.window);
    if e.Rebooted? {
      LoadCounts(cfg, wall, h.ledger, times);
      assert times + [] == times;
    } else {
      ApplyCounts(cfg, h, e, clock);
      if Apply(cfg, h, e).resets == [] {
        assert times + [] == times;
      } else {
        ResetKeeps(cfg, h, times, wall, Apply(cfg, h, e));
      }
    }
  }

  lemma DatedPlus(cfg: Config, times: seq<int>, wall: int)
    requires Ascending(times) && Dated(times, wall) && wall > 0
    ensures Ascending(times + [wall]) && Dated(times + [wall], wall)
    ensures Recent(times + [wall], wall, cfg.window) <= Recent(times, wall, cfg.window) + 1
  {
    assert (times + [wall])[..|times|] == times;
  }

  lemma ResetKeeps(cfg: Config, h: Host, times: seq<int>, wall: int, o: Out)
    requires Inv(cfg, h, times, wall) && wall > 0
    requires o.resets == [wall] && o.d.t.inWindow == h.d.t.inWindow + 1 && h.d.t.inWindow < cfg.limit
    ensures Inv(cfg, Host(o.d, Note(cfg, h.ledger, o.resets, o.d.t.total)), times + [wall], wall)
  {
    NoteRecords(cfg, h.ledger, times, wall, o.d.t.total);
    SpacedPlus(cfg, times, wall);
    DatedPlus(cfg, times, wall);
  }

  // ---------------------------------------------------------------- whole runs

  /** The wall clock never steps back. */
  predicate Forward(events: seq<Event>, clock: int)
    decreases |events|
  {
    events == [] || (clock <= WallOf(events[0], clock) && Forward(events[1..], WallOf(events[0], clock)))
  }

  /** The resets of a run of events, in order. */
  function ResetsOf(cfg: Config, h: Host, events: seq<Event>): seq<int> { Run(cfg, h, events).resets }

  lemma ResetsOfCons(cfg: Config, h: Host, events: seq<Event>)
    requires events != []
    ensures ResetsOf(cfg, h, events)
            == Apply(cfg, h, events[0]).resets + ResetsOf(cfg, After(cfg, h, events[0]), events[1..])
  {
  }

  ghost predicate Orderly(cfg: Config, times: seq<int>) { Ascending(times) && Spaced(cfg, times) }

  lemma Regroup(cfg: Config, a: seq<int>, b: seq<int>, c: seq<int>)
    requires Orderly(cfg, a + b + c)
    ensures Orderly(cfg, a + (b + c))
  {
    assert a + (b + c) == a + b + c;
  }

  lemma {:induction false} RunKeeps(cfg: Config, h: Host, events: seq<Event>, times: seq<int>, clock: int)
    requires cfg.limit <= LEDGER_MAX && Inv(cfg, h, times, clock) && 0 < clock && Forward(events, clock)
    ensures Orderly(cfg, times + ResetsOf(cfg, h, events))
    decreases |events|
  {
    if events == [] {
      assert times + [] == times;
    } else {
      var e := events[0];
      StepKeeps(cfg, h, e, times, clock);
      RunKeeps(cfg, After(cfg, h, e), events[1..], times + Apply(cfg, h, e).resets, WallOf(e, clock));
      Regroup(cfg, times, Apply(cfg, h, e).resets, ResetsOf(cfg, After(cfg, h, e), events[1..]));
      ResetsOfCons(cfg, h, events);
    }
  }

  /** The resets of a run that lie less than one window from each other: never more than the limit, over
      any mixture of ticks, starts, stops, option changes and restarts of the daemon, from a ledger that
      holds no reset. */
  lemma ResetRate(cfg: Config, d: Dial, events: seq<Event>, clock: int, chosen: set<nat>)
    requires cfg.limit <= LEDGER_MAX && 0 < clock && Forward(events, clock) && d.t.inWindow >= 0
    requires var times := Run(cfg, Host(d, Ledger(None, None)), events).resets;
             && (forall i | i in chosen :: i < |times|)
             && (forall i, j | i in chosen && j in chosen :: times[j] - times[i] < cfg.window)
    ensures |chosen| <= cfg.limit
  {
    var h := Host(d, Ledger(None, None));
    var times := Run(cfg, h, events).resets;
    RunKeeps(cfg, h, events, [], clock);
    assert [] + ResetsOf(cfg, h, events) == times;
    SpacedSets(cfg, times, chosen);
  }

  lemma SpacedSets(cfg: Config, times: seq<int>, chosen: set<nat>)
    requires Ascending(times) && Spaced(cfg, times)
    requires forall i | i in chosen :: i < |times|
    requires forall i, j | i in chosen && j in chosen :: times[j] - times[i] < cfg.window
    ensures |chosen| <= cfg.limit
  {
    if chosen != {} {
      var lo := Least(chosen);
      forall i | i in chosen ensures lo <= i < lo + cfg.limit {
        assert times[i] - times[lo] < cfg.window;
      }
      Narrow(chosen, lo, cfg.limit);
    }
  }

  lemma {:induction false} Least(s: set<nat>) returns (lo: nat)
    requires s != {}
    ensures lo in s && forall i | i in s :: lo <= i
    decreases |s|
  {
    var x :| x in s;
    if s == {x} {
      lo := x;
    } else {
      var y := Least(s - {x});
      assert forall i | i in s :: i == x || i in s - {x};
      lo := if x < y then x else y;
    }
  }

  /** A set of numbers in an interval is no larger than the interval. */
  lemma {:induction false} Narrow(s: set<nat>, lo: nat, n: nat)
    requires forall i | i in s :: lo <= i < lo + n
    ensures |s| <= n
    decreases n
  {
    if n == 0 {
      assert forall i :: i !in s;
    } else {
      Narrow(s - {lo + n - 1}, lo, n - 1);
    }
  }

  // ---------------------------------------------------------------- what the count does not do

  /** The ledger shows whether the window is full: its stamp at the limit is there and inside. */
  lemma LedgerShows(cfg: Config, s: seq<int>, times: seq<int>, clock: int)
    requires Ascending(times) && Records(cfg, s, times) && Dated(times, clock) && 0 < cfg.limit <= LEDGER_MAX
    ensures Recent(times, clock, cfg.window) >= cfg.limit
            <==> |s| >= cfg.limit && clock - s[cfg.limit - 1] < cfg.window
  {
    if |s| >= cfg.limit {
      assert s[cfg.limit - 1] == times[|times| - cfg.limit];
      if clock - s[cfg.limit - 1] >= cfg.window {
        RecentBelow(times, clock, cfg.window, cfg.limit - 1);
      } else if Recent(times, clock, cfg.window) < cfg.limit {
        OutOfWindow(times, clock, cfg.window, cfg.limit - 1);
      }
    } else if |s| < |times| {
      RecentBelow(times, clock, cfg.window, |s|);
    } else {
      RecentAtMost(times, clock, cfg.window);
    }
  }

  /** The design asks for a reset to be allowed exactly while fewer than the limit lie in the window.  That is
      what the count does if and only if it allows one, or the newest stamps of the ledger, as many as the
      limit, all still lie in the window. */
  lemma CountIsExact(cfg: Config, h: Host, times: seq<int>, clock: int)
    requires Inv(cfg, h, times, clock) && h.d.w.allowReset && 0 < cfg.limit <= LEDGER_MAX
    ensures var s := Stamps(h.ledger);
            (ResetAllowed(cfg, h.d) <==> Recent(times, clock, cfg.window) < cfg.limit)
            <==> (ResetAllowed(cfg, h.d) || (|s| >= cfg.limit && clock - s[cfg.limit - 1] < cfg.window))
  {
    LedgerShows(cfg, Stamps(h.ledger), times, clock);
  }
}

/** How long the limit on module resets lasts: until the daemon is restarted, not until the window has passed. */
module DialerRefusal {
  import opened DialerBound
  import opened DialerLedger
  import opened DialerModel

  /** One life of the daemon. */
  predicate Uninterrupted(events: seq<Event>) { forall i | 0 <= i < |events| :: !events[i].Rebooted? }

  /** In one life of the daemon the counter grows with every reset and by nothing else, and no reset takes it
      past the limit. */
  lemma {:induction false} RunCounts(cfg: Config, h: Host, events: seq<Event>)
    requires Uninterrupted(events)
    ensures var t := Run(cfg, h, events);
            && t.h.d.t.inWindow == h.d.t.inWindow + |t.resets|
            && (t.resets == [] || t.h.d.t.inWindow <= cfg.limit)
    decreases |events|
  {
    if events != [] {
      ApplyCounts(cfg, h, events[0], 0);
      RunCounts(cfg, After(cfg, h, events[0]), events[1..]);
    }
  }

  /** Once the counter has reached the limit no run makes another reset, however long it is and however far the
      clock goes on, until the daemon is restarted. */
  lemma RefusalOutlivesWindow(cfg: Config, h: Host, events: seq<Event>)
    requires Uninterrupted(events) && h.d.t.inWindow >= cfg.limit
    ensures Run(cfg, h, events).resets == []
    ensures Run(cfg, h, events).h.d.t.inWindow == h.d.t.inWindow
  {
    RunCounts(cfg, h, events);
  }

  // ---------------------------------------------------------------- a run into the refusal

  /** The dialer could be started again at once. */
  predicate Ready(d: Dial) {
    && d.w.wanted && !d.r.running && d.w.allowReset && d.w.apnOk && d.w.kindKnown && d.w.kindEcm
  }

  /** A step that comes to the end of the ladder and is refused the reset: the dialer stops for good. */
  predicate GivesUp(cfg: Config, d: Dial, e: Dial) {
    && d.t.attempt >= |cfg.ladder| && d.w.allowReset && d.t.inWindow >= cfg.limit
    && e.t.stopped && e.t.inWindow == d.t.inWindow
  }

  /** After a step of the worst run the dialer goes on, or has given up. */
  predicate GoesOn(cfg: Config, d: Dial, e: Dial) { Ready(e) && (Alive(e) || GivesUp(cfg, d, e)) }

  lemma FailGoesOn(cfg: Config, d: Dial, env: Env)
    requires Ready(d) && !d.t.stopped
    ensures GoesOn(cfg, d, Fail(cfg, d, env).d)
  {
    var o := Fail(cfg, d, env);
    if d.t.attempt < |cfg.ladder| || ResetAllowed(cfg, Fallen(d)) {
      assert Alive(o.d);
    }
  }

  lemma ReplyGoesOn(cfg: Config, d: Dial, clock: nat)
    requires Ready(d) && Alive(d) && Clean(d)
    requires Due(d, WorstEvent(d, clock).env).Some?
    ensures var env := WorstEvent(d, clock).env;
            GoesOn(cfg, d, OnReply(cfg, Busying(d), env, Due(d, env).value, WorstReply(d)).d)
  {
    var env := WorstEvent(d, clock).env;
    var o := OnReply(cfg, Busying(d), env, Due(d, env).value, WorstReply(d));
    if d.r.step == Ip && d.r.ipPolls + 1 == IP_MAX_POLLS {
      FailGoesOn(cfg, Polled(Answer(Busying(d))), env);
    } else {
      assert o == Quietly(WorstNext(d, env));
    }
  }

  lemma TickGoesOn(cfg: Config, h: Host, clock: nat)
    requires Ready(h.d) && Alive(h.d) && Clean(h.d)
    ensures GoesOn(cfg, h.d, Apply(cfg, h, WorstEvent(h.d, clock)).d)
  {
    var env := WorstEvent(h.d, clock).env;
    var s := SyncKind(h.d, env);
    assert s == h.d;
    assert GateOpen(s, env) && Due(s, env).Some?;
    ReplyGoesOn(cfg, s, clock);
  }

  function Wall(clock: nat): int { clock / 1000 + 1 }

  /** A tick no earlier than `clock`, by both clocks. */
  predicate Since(e: Event, clock: nat) {
    e.Ticked? && clock <= e.env.now && e.env.wall == Wall(e.env.now)
  }

  lemma WorstTick(cfg: Config, h: Host, clock: nat) returns (e: Event, next: Host)
    requires Ready(h.d) && Alive(h.d) && Clean(h.d) && h.d.t.attempt <= |cfg.ladder|
    ensures Since(e, clock) && next == After(cfg, h, e) && GoesOn(cfg, h.d, next.d)
    ensures Budget(cfg, true, next.d) < Budget(cfg, true, h.d) && Clean(next.d) && next.d.t.attempt <= |cfg.ladder|
  {
    e := WorstEvent(h.d, clock);
    next := After(cfg, h, e);
    TickGoesOn(cfg, h, clock);
    WorstStep(cfg, true, h, clock);
  }

  /** The wall-clock time after a run of events. */
  function LastWall(events: seq<Event>, clock: int): int
    decreases |events|
  {
    if events == [] then clock else LastWall(events[1..], WallOf(events[0], clock))
  }

  /** A run that ends just before the dialer gives up, and the tick in which it does. */
  ghost predicate Exhausts(cfg: Config, h: Host, clock: nat, events: seq<Event>, last: Event) {
    var before, whole := Run(cfg, h, events), Run(cfg, h, events + [last]);
    && Uninterrupted(events + [last]) && last.Ticked?
    && Forward(events, Wall(clock)) && LastWall(events, Wall(clock)) <= Wall(last.env.now) == last.env.wall
    && (forall t | t in whole.resets :: t <= last.env.wall)
    && GivesUp(cfg, before.h.d, whole.h.d) && Ready(whole.h.d)
  }

  lemma RunOne(cfg: Config, h: Host, e: Event)
    ensures Run(cfg, h, [e]).h == After(cfg, h, e) && Run(cfg, h, [e]).resets == Apply(cfg, h, e).resets
  {
  }

  lemma ExhaustsNow(cfg: Config, h: Host, clock: nat, e: Event, next: Host)
    requires Since(e, clock) && next == After(cfg, h, e) && GivesUp(cfg, h.d, next.d) && Ready(next.d)
    ensures Exhausts(cfg, h, clock, [], e)
  {
    ApplyCounts(cfg, h, e, 0);
    RunOne(cfg, h, e);
    assert [] + [e] == [e];
  }

  lemma ExhaustsFirst(cfg: Config, h: Host, clock: nat, e: Event, next: Host, more: seq<Event>, last: Event)
    requires Since(e, clock) && next == After(cfg, h, e) && Exhausts(cfg, next, e.env.now, more, last)
    requires e.env.wall <= last.env.wall
    ensures Exhausts(cfg, h, clock, [e] + more, last)
  {
    ApplyCounts(cfg, h, e, 0);
    var events := [e] + more;
    assert events[1..] == more && (events + [last])[1..] == more + [last];
    forall i | 0 <= i < |events + [last]| ensures !(events + [last])[i].Rebooted? {
      if i > 0 { assert (events + [last])[i] == (more + [last])[i - 1]; }
    }
  }

  lemma {:induction false} Exhaust(cfg: Config, h: Host, clock: nat) returns (events: seq<Event>, last: Event)
    requires Ready(h.d) && Alive(h.d) && Clean(h.d) && h.d.t.attempt <= |cfg.ladder|
    ensures Exhausts(cfg, h, clock, events, last) && Wall(clock) <= last.env.wall
    decreases Budget(cfg, true, h.d)
  {
    var e, next := WorstTick(cfg, h, clock);
    if Alive(next.d) {
      var more: seq<Event>;
      more, last := Exhaust(cfg, next, e.env.now);
      events := [e] + more;
      ExhaustsFirst(cfg, h, clock, e, next, more, last);
    } else {
      events, last := [], e;
      ExhaustsNow(cfg, h, clock, e, next);
    }
  }

  // ---------------------------------------------------------------- two starts in one run

  /** `u` is run `t` with the resets `made` before it. */
  predicate Extends(t: Trip, made: seq<int>, u: Trip) { u.h == t.h && u.resets == made + t.resets }

  lemma Begin(cfg: Config, h: Host, e: Event, a: seq<Event>, b: seq<Event>) returns (next: Host, made: seq<int>)
    ensures Extends(Run(cfg, next, a), made, Run(cfg, h, [e] + a))
    ensures Extends(Run(cfg, next, a + b), made, Run(cfg, h, [e] + a + b))
  {
    next, made := After(cfg, h, e), Apply(cfg, h, e).resets;
    assert ([e] + a)[1..] == a && ([e] + a + b)[1..] == a + b;
  }

  lemma Regrouped(first: Trip, whole: Trip, rest: Trip, t: Trip, u: Trip, made: seq<int>)
    requires Extends(t, made, first) && Extends(u, made, whole) && Extends(rest, t.resets, u)
    ensures Extends(rest, first.resets, whole)
  {
    assert made + (t.resets + rest.resets) == made + t.resets + rest.resets;
  }

  lemma {:induction false} RunSplits(cfg: Config, h: Host, a: seq<Event>, b: seq<Event>)
    ensures Extends(Run(cfg, Run(cfg, h, a).h, b), Run(cfg, h, a).resets, Run(cfg, h, a + b))
    decreases |a|
  {
    if a == [] {
      assert a + b == b;
    } else {
      var next, made := Begin(cfg, h, a[0], a[1..], b);
      RunSplits(cfg, next, a[1..], b);
      assert [a[0]] + a[1..] == a;
      var mid := Run(cfg, next, a[1..]);
      Regrouped(Run(cfg, h, a), Run(cfg, h, a + b), Run(cfg, mid.h, b), mid, Run(cfg, next, a[1..] + b), made);
    }
  }

  lemma {:induction false} ForwardEarlier(events: seq<Event>, clock: int, later: int)
    requires clock <= later && Forward(events, later)
    ensures Forward(events, clock) && LastWall(events, clock) <= LastWall(events, later)
    decreases |events|
  {
    if events != [] { ForwardEarlier(events[1..], WallOf(events[0], clock), WallOf(events[0], later)); }
  }

  lemma {:induction false} ForwardJoins(a: seq<Event>, b: seq<Event>, clock: int, later: int)
    requires Forward(a, clock) && LastWall(a, clock) <= later && Forward(b, later)
    ensures Forward(a + b, clock) && LastWall(a + b, clock) <= LastWall(b, later)
    decreases |a|
  {
    if a == [] {
      assert a + b == b;
      ForwardEarlier(b, clock, later);
    } else {
      assert (a + b)[1..] == a[1..] + b;
      ForwardJoins(a[1..], b, WallOf(a[0], clock), later);
    }
  }

  lemma StartExhausts(cfg: Config, h: Host, env: Env, clock: nat) returns (events: seq<Event>, last: Event)
    requires Launched(h.d, env) && h.d.w.allowReset && !h.d.r.running
    ensures Exhausts(cfg, h, clock, events, last) && Wall(clock) <= last.env.wall
  {
    var next := Restarted(h, env);
    assert After(cfg, h, Started(env)) == next;
    var more: seq<Event>;
    more, last := Exhaust(cfg, next, clock);
    events := [Started(env)] + more;
    assert events[1..] == more && (events + [last])[1..] == more + [last];
    forall i | 0 <= i < |events + [last]| ensures !(events + [last])[i].Rebooted? {
      if i > 0 { assert (events + [last])[i] == (more + [last])[i - 1]; }
    }
  }

  /** Such a run with its last tick: it used up the resets, and the dialer can be started again. */
  lemma UsesUp(cfg: Config, h: Host, clock: nat, events: seq<Event>, last: Event)
    requires Exhausts(cfg, h, clock, events, last)
    ensures var t := Run(cfg, h, events + [last]);
            && t.h.d.t.inWindow >= cfg.limit
            && (h.d.t.inWindow < cfg.limit ==> |t.resets| == cfg.limit - h.d.t.inWindow)
    ensures Forward(events + [last], Wall(clock)) && LastWall(events + [last], Wall(clock)) <= last.env.wall
  {
    RunCounts(cfg, h, events + [last]);
    ForwardJoins(events, [last], Wall(clock), last.env.wall);
  }

  lemma {:induction false} RecentOld(times: seq<int>, now: int, window: nat)
    requires forall i | 0 <= i < |times| :: now - times[i] >= window
    ensures Recent(times, now, window) == 0
  {
    if times != [] {
      RecentOld(times[..|times| - 1], now, window);
    }
  }

  /** The last tick of `whole` is refused its reset, though the resets `made` before it, as many as were left,
      are all out of the window. */
  predicate Refused(cfg: Config, left: int, made: seq<int>, before: Trip, whole: Trip, last: Event) {
    && GivesUp(cfg, before.h.d, whole.h.d) && |made| == left
    && last.Ticked? && Recent(made, last.env.wall, cfg.window) == 0
  }

  /** Two starts one after the other, with a window between them. */
  ghost predicate TwoClimbs(cfg: Config, h: Host, first: seq<Event>, second: seq<Event>, last: Event) {
    var mid := Run(cfg, h, first);
    var before, whole := Run(cfg, mid.h, second), Run(cfg, mid.h, second + [last]);
    whole.resets == [] && Refused(cfg, cfg.limit - h.d.t.inWindow, mid.resets, before, whole, last)
  }

  lemma ClimbTwice(cfg: Config, h: Host, env: Env, clock: nat)
      returns (first: seq<Event>, second: seq<Event>, last: Event)
    requires Launched(h.d, env) && h.d.w.allowReset && !h.d.r.running && h.d.t.inWindow < cfg.limit
    ensures TwoClimbs(cfg, h, first, second, last)
    ensures Uninterrupted(first + (second + [last])) && Forward(first + (second + [last]), Wall(clock))
  {
    var begin, end := StartExhausts(cfg, h, env, clock);
    UsesUp(cfg, h, clock, begin, end);
    first := begin + [end];
    var mid := Run(cfg, h, first);
    var later := end.env.now + 1000 * cfg.window;
    second, last := StartExhausts(cfg, mid.h, env, later);
    UsesUp(cfg, mid.h, later, second, last);
    RefusalOutlivesWindow(cfg, mid.h, second + [last]);
    Aged(mid.resets, end.env.wall, last.env.wall, cfg.window);
    ForwardJoins(first, second + [last], Wall(clock), Wall(later));
  }

  lemma OneRun(cfg: Config, left: int, mid: Trip, b: Trip, w: Trip, before: Trip, whole: Trip, last: Event)
    requires Refused(cfg, left, mid.resets, b, w, last) && w.resets == []
    requires Extends(b, mid.resets, before) && Extends(w, mid.resets, whole)
    ensures Refused(cfg, left, whole.resets, before, whole, last)
  {
    assert mid.resets + [] == mid.resets;
  }

  lemma Joined(cfg: Config, h: Host, first: seq<Event>, second: seq<Event>, last: Event)
    requires TwoClimbs(cfg, h, first, second, last)
    ensures var before, whole := Run(cfg, h, first + second), Run(cfg, h, first + (second + [last]));
            Refused(cfg, cfg.limit - h.d.t.inWindow, whole.resets, before, whole, last)
  {
    RunSplits(cfg, h, first, second);
    RunSplits(cfg, h, first, second + [last]);
    var mid := Run(cfg, h, first);
    OneRun(cfg, cfg.limit - h.d.t.inWindow, mid, Run(cfg, mid.h, second), Run(cfg, mid.h, second + [last]),
           Run(cfg, h, first + second), Run(cfg, h, first + (second + [last])), last);
  }

  /** A refusal against the window: for every ladder, limit and window some run of one life of the daemon makes
      all the resets it may, is started again when the last of them has left the window, climbs the whole ladder
      once more, and is refused the reset that the window would allow. */
  lemma RefusedWithEmptyWindow(cfg: Config, h: Host, env: Env, clock: nat) returns (events: seq<Event>, last: Event)
    requires Launched(h.d, env) && h.d.w.allowReset && !h.d.r.running && h.d.t.inWindow < cfg.limit
    ensures Uninterrupted(events + [last]) && Forward(events + [last], Wall(clock))
    ensures var before, whole := Run(cfg, h, events), Run(cfg, h, events + [last]);
            Refused(cfg, cfg.limit - h.d.t.inWindow, whole.resets, before, whole, last)
  {
    var first, second: seq<Event>;
    first, second, last := ClimbTwice(cfg, h, env, clock);
    Joined(cfg, h, first, second, last);
    events := first + second;
    assert events + [last] == first + (second + [last]);
  }

  lemma Aged(times: seq<int>, upTo: int, now: int, window: nat)
    requires (forall t | t in times :: t <= upTo) && now - upTo >= window
    ensures Recent(times, now, window) == 0
  {
    forall i | 0 <= i < |times| ensures now - times[i] >= window { assert times[i] in times; }
    RecentOld(times, now, window);
  }

  /** A run that makes a reset before the daemon is restarted. */
  ghost predicate Resets(cfg: Config, h: Host, events: seq<Event>) {
    Uninterrupted(events) && Run(cfg, h, events).resets != []
  }

  lemma SomeReset(cfg: Config, h: Host, env: Env) returns (events: seq<Event>)
    requires Launched(h.d, env) && h.d.w.allowReset && !h.d.r.running && h.d.t.inWindow < cfg.limit
    ensures Resets(cfg, h, events)
  {
    var begin, end := StartExhausts(cfg, h, env, 0);
    UsesUp(cfg, h, 0, begin, end);
    events := begin + [end];
  }

  lemma NoReset(cfg: Config, h: Host, events: seq<Event>)
    requires h.d.t.inWindow >= cfg.limit
    ensures !Resets(cfg, h, events)
  {
    if Uninterrupted(events) { RefusalOutlivesWindow(cfg, h, events); }
  }

  /** Where a dialer may be started, some run resets the module before the daemon is restarted, if and only if
      the counter is below the limit; the age of the earlier resets does not enter. */
  lemma ResetsExactlyBelow(cfg: Config, h: Host, env: Env)
    requires Launched(h.d, env) && h.d.w.allowReset && !h.d.r.running
    ensures (exists events :: Resets(cfg, h, events)) <==> h.d.t.inWindow < cfg.limit
  {
    if h.d.t.inWindow < cfg.limit {
      var events := SomeReset(cfg, h, env);
    } else {
      forall events ensures !Resets(cfg, h, events) { NoReset(cfg, h, events); }
    }
  }
}

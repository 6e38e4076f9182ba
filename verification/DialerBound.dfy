/** How many commands the dialer can send before it gives up. */
module DialerBound {
  import opened DialerModel
  import opened Options

  // ---------------------------------------------------------------- the measure

  function Max0(x: int): nat { if x > 0 then x else 0 }

  /** Resets still to come; `may` says whether they are, or may yet be, switched on. */
  function ResetsLeft(cfg: Config, may: bool, d: Dial): nat { if may then Max0(cfg.limit - d.t.inWindow) else 0 }

  predicate Permits(may: bool, d: Dial) { d.w.allowReset ==> may }

  function Times(r: nat, n: nat): nat { if r == 0 then 0 else n + Times(r - 1, n) }

  lemma {:induction false} TimesIsProduct(r: nat, n: nat)
    ensures Times(r, n) == r * n
  {
    if r > 0 { TimesIsProduct(r - 1, n); }
  }

  /** Attempts that can still begin after the present one: the rest of this ladder and a ladder per reset. */
  function AttemptsLeft(cfg: Config, may: bool, d: Dial): nat {
    Max0(|cfg.ladder| - d.t.attempt) + Times(ResetsLeft(cfg, may, d), |cfg.ladder| + 1)
  }

  /** Commands the present rung and the ones above it can still send, probes and deactivation apart. */
  function RungsLeft(d: Dial): nat {
    match d.r.step
    case Pin => 11
    case Reg => 7 + Max0(3 - d.r.sub)
    case Apn => 7
    case Activate => 6
    case Ip => Max0(5 - d.r.ipPolls)
    case Up => Max0(5 - d.r.ipPolls)
    case _ => 0
  }

  /** The verb is probed for at most once in the life of the daemon. */
  function ProbesLeft(d: Dial): nat {
    if d.r.verb >= 0 then 0 else if d.r.step == Activate then Max0(2 - d.r.sub) else 2
  }

  predicate Alive(d: Dial) {
    && d.w.wanted && !d.t.stopped && !d.r.running
    && (d.r.step.Pin? || d.r.step.Reg? || d.r.step.Apn? || d.r.step.Activate? || d.r.step.Ip? || d.r.step.Up?)
  }

  /** The commands that can still be sent while no read-back yields an accepted address. */
  function Budget(cfg: Config, may: bool, d: Dial): nat {
    if !Alive(d) then 0
    else
      RungsLeft(d) + ProbesLeft(d) + (if d.r.wasUp then 1 else 0)
      + 11 * AttemptsLeft(cfg, may, d) + ResetsLeft(cfg, may, d)
  }

  /** Holds in every state of every run; without it an address poll could outlast its count. */
  predicate Steady(d: Dial) { d.r.ipPolls < IP_MAX_POLLS }

  // ---------------------------------------------------------------- one step

  /** What a failed rung leaves: the attempts and resets still to come, and their probes and deactivation. */
  function Reserve(cfg: Config, may: bool, d: Dial): nat {
    11 * AttemptsLeft(cfg, may, d) + ResetsLeft(cfg, may, d)
    + (if d.r.verb < 0 then 2 else 0) + (if d.r.wasUp then 1 else 0)
  }

  /** Everything the measure reads, apart from the rung, is what a failed rung left of it. */
  predicate SameStock(d: Dial, e: Dial) {
    e.w.allowReset == d.w.allowReset && e.t.inWindow == d.t.inWindow && e.r.verb == d.r.verb && e.r.wasUp == d.r.wasUp
  }

  lemma NextAttempt(cfg: Config, may: bool, d: Dial, e: Dial)
    requires d.t.attempt < |cfg.ladder| && e.t.attempt == d.t.attempt + 1 && SameStock(d, e)
    ensures Reserve(cfg, may, e) + 11 == Reserve(cfg, may, d)
  {
  }

  lemma NextLadder(cfg: Config, may: bool, d: Dial, e: Dial)
    requires ResetAllowed(cfg, d) && Permits(may, d) && d.t.attempt >= |cfg.ladder| && e.t.attempt == 0
    requires e.t.inWindow == d.t.inWindow + 1 && e.r.verb == d.r.verb && e.r.wasUp == d.r.wasUp
    ensures Reserve(cfg, may, e) + 12 == Reserve(cfg, may, d)
  {
  }

  lemma AtPin(cfg: Config, may: bool, e: Dial)
    requires e.r.step == Pin
    ensures Budget(cfg, may, e) == if Alive(e) then 11 + Reserve(cfg, may, e) else 0
  {
  }

  lemma FailBudget(cfg: Config, may: bool, d: Dial, env: Env)
    requires d.w.wanted && !d.t.stopped && Permits(may, d)
    ensures var o := Fail(cfg, d, env);
            && o.d.w.wanted && Steady(o.d) && o.d.w.allowReset == d.w.allowReset
            && Budget(cfg, may, o.d) + |o.cmds| <= Reserve(cfg, may, d)
  {
    var e := Fail(cfg, d, env).d;
    if d.t.attempt < |cfg.ladder| {
      NextAttempt(cfg, may, d, e);
      AtPin(cfg, may, e);
    } else if ResetAllowed(cfg, d) {
      NextLadder(cfg, may, d, e);
      AtPin(cfg, may, e);
    } else {
      assert !Alive(e);
    }
  }

  /** The measure of a live state, with what the present attempt has left set apart. */
  lemma Split(cfg: Config, may: bool, d: Dial)
    requires Alive(d)
    ensures Budget(cfg, may, d) + (if d.r.verb < 0 then 2 else 0)
            == RungsLeft(d) + ProbesLeft(d) + Reserve(cfg, may, d)
  {
  }

  /** Moving up a rung leaves the reserve alone. */
  lemma SameReserve(cfg: Config, may: bool, d: Dial, e: Dial)
    requires e.t.inWindow == d.t.inWindow && e.r.wasUp == d.r.wasUp && e.t.attempt == d.t.attempt
    ensures Reserve(cfg, may, e) - (if e.r.verb < 0 then 2 else 0)
            == Reserve(cfg, may, d) - (if d.r.verb < 0 then 2 else 0)
  {
  }

  /** A read of the context, if that is what is due, yields no accepted address. */
  predicate NoAddress(d: Dial, fate: Fate) {
    fate.Answered? && (d.r.step.Ip? || d.r.step.Up?) ==> !Addressed(fate.reply)
  }

  /** The answer to command `cmd` was paid for. */
  predicate Paid(cfg: Config, may: bool, d: Dial, o: Out, paid: nat) {
    && o.d.w.wanted && Steady(o.d) && o.d.w.allowReset == d.w.allowReset
    && Budget(cfg, may, o.d) + |o.cmds| + paid <= Budget(cfg, may, d)
  }

  /** A rung that fails after its last command has paid for it. */
  lemma FailPaid(cfg: Config, may: bool, d: Dial, f: Dial, env: Env)
    requires Alive(d) && Permits(may, d) && f.w.wanted && !f.t.stopped && SameStock(d, f) && f.t.attempt == d.t.attempt
    requires RungsLeft(d) + ProbesLeft(d) > if d.r.verb < 0 then 2 else 0
    ensures Paid(cfg, may, d, Fail(cfg, f, env), 1)
  {
    Split(cfg, may, d);
    FailBudget(cfg, may, f, env);
    SameReserve(cfg, may, d, f);
  }

  /** A rung that goes on has used one command. */
  lemma StepPaid(cfg: Config, may: bool, d: Dial, e: Dial)
    requires Alive(d) && Alive(e) && Steady(e) && e.t.attempt == d.t.attempt
    requires e.w.allowReset == d.w.allowReset && e.t.inWindow == d.t.inWindow && e.r.wasUp == d.r.wasUp
    requires RungsLeft(e) + ProbesLeft(e) < RungsLeft(d) + ProbesLeft(d)
    ensures Paid(cfg, may, d, Quietly(e), 1)
  {
    assert AttemptsLeft(cfg, may, e) == AttemptsLeft(cfg, may, d);
  }

  lemma PinBudget(cfg: Config, may: bool, d: Dial, env: Env, r: Reply)
    requires Alive(d) && Steady(d) && Permits(may, d) && d.r.step == Pin
    ensures Paid(cfg, may, d, OnPin(cfg, Busying(d), env, r), 1)
  {
    if r.status == Ok && r.cpin == 1 {
      StepPaid(cfg, may, d, OnPin(cfg, Busying(d), env, r).d);
    } else {
      FailPaid(cfg, may, d, Answer(Busying(d)), env);
    }
  }

  lemma RegBudget(cfg: Config, may: bool, d: Dial, env: Env, r: Reply)
    requires Alive(d) && Steady(d) && Permits(may, d) && d.r.step == Reg && d.r.sub < REG_SUBS
    ensures Paid(cfg, may, d, OnReg(cfg, Busying(d), env, r), 1)
  {
    if (r.status == Ok && (r.reg == 1 || r.reg == 5)) || d.r.sub + 1 < REG_SUBS {
      StepPaid(cfg, may, d, OnReg(cfg, Busying(d), env, r).d);
    } else {
      FailPaid(cfg, may, d, NextDomain(Answer(Busying(d))), env);
    }
  }

  lemma ApnBudget(cfg: Config, may: bool, d: Dial, env: Env, r: Reply)
    requires Alive(d) && Steady(d) && Permits(may, d) && d.r.step == Apn
    ensures Paid(cfg, may, d, OnApn(cfg, Busying(d), env, r), 1)
  {
    if r.status == Ok {
      StepPaid(cfg, may, d, OnApn(cfg, Busying(d), env, r).d);
    } else {
      FailPaid(cfg, may, d, Answer(Busying(d)), env);
    }
  }

  lemma ProbeBudget(cfg: Config, may: bool, d: Dial, env: Env, r: Reply)
    requires Alive(d) && Steady(d) && Permits(may, d) && d.r.step == Activate && d.r.verb < 0 && d.r.sub < PROBE_SUBS
    ensures Paid(cfg, may, d, OnProbe(cfg, Busying(d), env, r, d.r.sub), 1)
  {
    if r.status == Ok || d.r.sub == 0 {
      StepPaid(cfg, may, d, OnProbe(cfg, Busying(d), env, r, d.r.sub).d);
    } else {
      FailPaid(cfg, may, d, Answer(Busying(d)), env);
    }
  }

  lemma ActivateBudget(cfg: Config, may: bool, d: Dial, env: Env, r: Reply)
    requires Alive(d) && Steady(d) && Permits(may, d) && d.r.step == Activate && d.r.verb >= 0
    ensures Paid(cfg, may, d, OnActivate(cfg, Busying(d), env, r), 1)
  {
    if !Inactive(r) {
      StepPaid(cfg, may, d, OnActivate(cfg, Busying(d), env, r).d);
    } else {
      FailPaid(cfg, may, d, Answer(Busying(d)), env);
    }
  }

  lemma IpBudget(cfg: Config, may: bool, d: Dial, env: Env, r: Reply)
    requires Alive(d) && Steady(d) && Permits(may, d) && (d.r.step == Ip || d.r.step == Up) && !Addressed(r)
    ensures Paid(cfg, may, d, OnIp(cfg, Busying(d), env, r), 1)
  {
    if Readable(r) && (r.wwan.value.active == 0 || r.wwan.value.hasAddr) {
      FailPaid(cfg, may, d, Answer(Busying(d)), env);
    } else if d.r.ipPolls + 1 < IP_MAX_POLLS {
      StepPaid(cfg, may, d, OnIp(cfg, Busying(d), env, r).d);
    } else {
      FailPaid(cfg, may, d, Polled(Answer(Busying(d))), env);
    }
  }

  lemma ReplyBudget(cfg: Config, may: bool, d: Dial, env: Env, cmd: Command, r: Reply)
    requires Alive(d) && Steady(d) && Permits(may, d) && Due(d, env) == Some(cmd)
    requires cmd == ReadContext ==> !Addressed(r)
    ensures Paid(cfg, may, d, OnReply(cfg, Busying(d), env, cmd, r), 1)
  {
    match cmd
    case QueryPin => PinBudget(cfg, may, d, env, r);
    case QueryReg(_) => RegBudget(cfg, may, d, env, r);
    case SetApn => ApnBudget(cfg, may, d, env, r);
    case Probe(_) => ProbeBudget(cfg, may, d, env, r);
    case DoActivate => ActivateBudget(cfg, may, d, env, r);
    case ReadContext => IpBudget(cfg, may, d, env, r);
  }

  /** The deactivation owed to a link that was up is sent once. */
  lemma DeactivateBudget(cfg: Config, may: bool, d: Dial, e: Dial)
    requires Alive(d) && Steady(d) && Permits(may, d) && d.r.step == Activate && d.r.verb >= 0 && d.r.wasUp
    requires e == Unmarked(d) || exists t: nat :: e == At(Unmarked(d), t)
    ensures e.w.wanted && Steady(e) && e.w.allowReset == d.w.allowReset
    ensures Budget(cfg, may, e) + 1 == Budget(cfg, may, d)
  {
    assert Alive(e) && AttemptsLeft(cfg, may, e) == AttemptsLeft(cfg, may, d);
  }

  lemma RewindBudget(cfg: Config, may: bool, d: Dial, env: Env)
    requires Alive(d) && Steady(d) && Permits(may, d) && (d.r.step == Reg || d.r.step == Activate)
    ensures Paid(cfg, may, d, Fail(cfg, Rewound(d), env), 0) && Paid(cfg, may, d, Fail(cfg, d, env), 0)
  {
    Split(cfg, may, d);
    FailBudget(cfg, may, d, env);
    FailBudget(cfg, may, Rewound(d), env);
    SameReserve(cfg, may, d, Rewound(d));
  }

  lemma StuckBudget(cfg: Config, may: bool, d: Dial, env: Env, fate: Fate)
    requires Alive(d) && Steady(d) && Permits(may, d) && Due(d, env) == None
    ensures Paid(cfg, may, d, Stuck(cfg, d, env, fate), 0)
  {
    if d.r.step == Activate && d.r.verb >= 0 && d.r.wasUp {
      DeactivateBudget(cfg, may, d, Unmarked(d));
      DeactivateBudget(cfg, may, d, At(Unmarked(d), env.now + REACTIVATE_MS));
    } else if d.r.step == Apn {
      assert !Alive(StopHealing(Misconfigured(d)));
    } else {
      RewindBudget(cfg, may, d, env);
    }
  }

  lemma RejectedBudget(cfg: Config, may: bool, d: Dial, env: Env, cmd: Command)
    requires Alive(d) && Steady(d)
    ensures Paid(cfg, may, d, Submit(cfg, d, env, cmd, Rejected), 0)
  {
    var e := At(Answer(d), env.later + RESUBMIT_MS);
    assert Alive(e) && AttemptsLeft(cfg, may, e) == AttemptsLeft(cfg, may, d);
  }

  lemma LostBudget(cfg: Config, may: bool, d: Dial, env: Env, cmd: Command)
    requires Alive(d) && Steady(d) && Due(d, env) == Some(cmd)
    ensures Paid(cfg, may, d, Submit(cfg, d, env, cmd, Lost), 0)
  {
    assert !Alive(Busying(d)) && RungsLeft(d) >= 1;
  }

  lemma AnsweredBudget(cfg: Config, may: bool, d: Dial, env: Env, cmd: Command, r: Reply)
    requires Alive(d) && Steady(d) && Permits(may, d) && Due(d, env) == Some(cmd)
    requires cmd == ReadContext ==> !Addressed(r)
    ensures Paid(cfg, may, d, Submit(cfg, d, env, cmd, Answered(r)), 0)
  {
    ReplyBudget(cfg, may, d, env, cmd, r);
    AfterCommand(cfg, may, d, OnReply(cfg, Busying(d), env, cmd, r), cmd);
  }

  /** The command itself comes before what its answer sends. */
  lemma AfterCommand(cfg: Config, may: bool, d: Dial, o: Out, cmd: Command)
    requires Paid(cfg, may, d, o, 1)
    ensures Paid(cfg, may, d, Out(o.d, [cmd] + o.cmds, o.resets), 0)
  {
  }

  /** A rung whose gate is open sends at most what the measure loses. */
  lemma SubmitBudget(cfg: Config, may: bool, d: Dial, env: Env, cmd: Command, fate: Fate)
    requires Alive(d) && Steady(d) && Permits(may, d) && NoAddress(d, fate) && Due(d, env) == Some(cmd)
    ensures Paid(cfg, may, d, Submit(cfg, d, env, cmd, fate), 0)
  {
    match fate
    case Rejected => RejectedBudget(cfg, may, d, env, cmd);
    case Lost => LostBudget(cfg, may, d, env, cmd);
    case Answered(r) => AnsweredBudget(cfg, may, d, env, cmd, r);
  }

  lemma SyncBudget(cfg: Config, may: bool, d: Dial, env: Env)
    ensures Budget(cfg, may, SyncKind(d, env)) == Budget(cfg, may, d)
    ensures SyncKind(d, env).w.wanted == d.w.wanted && SyncKind(d, env).w.allowReset == d.w.allowReset
    ensures Steady(SyncKind(d, env)) == Steady(d)
  {
    var s := SyncKind(d, env);
    assert Alive(s) == Alive(d) && AttemptsLeft(cfg, may, s) == AttemptsLeft(cfg, may, d);
  }

  /** A tick pays for the commands it submits, unless a read of the context yields an accepted address. */
  lemma TickBudget(cfg: Config, may: bool, d: Dial, env: Env, fate: Fate)
    requires d.w.wanted && Steady(d) && Permits(may, d) && NoAddress(d, fate)
    ensures Paid(cfg, may, d, Tick(cfg, d, env, fate), 0)
  {
    var s := SyncKind(d, env);
    SyncBudget(cfg, may, d, env);
    if env.enabled && GateOpen(s, env) && Alive(s) {
      match Due(s, env)
      case Some(cmd) => SubmitBudget(cfg, may, s, env, cmd, fate);
      case None => StuckBudget(cfg, may, s, env, fate);
    }
  }

  // ---------------------------------------------------------------- whole runs

  /** What may happen while the dialer is on its way: ticks that do not read an accepted address, the options
      being read again, and starts, which change nothing then. */
  predicate OnItsWay(d: Dial, e: Event) {
    match e
    case Ticked(_, fate) => NoAddress(d, fate)
    case Configured(_, _, _) => true
    case Started(_) => d.w.wanted && !d.t.stopped
    case _ => false
  }

  /** Nothing but that happens in the whole run. */
  predicate Dry(cfg: Config, h: Host, events: seq<Event>)
    decreases |events|
  {
    events == [] || (OnItsWay(h.d, events[0]) && Dry(cfg, After(cfg, h, events[0]), events[1..]))
  }

  predicate SwitchesOn(e: Event) { e.Configured? && e.allowReset }

  /** Resets are switched on, now or by an event of the run. */
  predicate MayReset(d: Dial, events: seq<Event>) {
    d.w.allowReset || exists i :: 0 <= i < |events| && SwitchesOn(events[i])
  }

  lemma ConfigureBudget(cfg: Config, may: bool, d: Dial, apnOk: bool, allowReset: bool, autostart: bool)
    requires d.w.wanted && Steady(d)
    ensures var e := Configure(d, apnOk, allowReset, autostart);
            && e.w.wanted && Steady(e) && e.w.allowReset == allowReset && Budget(cfg, may, e) == Budget(cfg, may, d)
  {
    var e := Configure(d, apnOk, allowReset, autostart);
    assert Alive(e) == Alive(d) && AttemptsLeft(cfg, may, e) == AttemptsLeft(cfg, may, d);
  }

  /** Every such event pays for the commands it sends, and leaves resets off where nothing switches them on. */
  lemma EventBudget(cfg: Config, may: bool, h: Host, e: Event)
    requires h.d.w.wanted && Steady(h.d) && Permits(may, h.d) && OnItsWay(h.d, e) && (SwitchesOn(e) ==> may)
    ensures var o := Apply(cfg, h, e);
            && o.d.w.wanted && Steady(o.d) && Permits(may, o.d)
            && Budget(cfg, may, o.d) + |o.cmds| <= Budget(cfg, may, h.d)
  {
    match e
    case Ticked(env, fate) => TickBudget(cfg, may, h.d, env, fate);
    case Configured(apnOk, allowReset, autostart) => ConfigureBudget(cfg, may, h.d, apnOk, allowReset, autostart);
    case Started(_) =>
  }

  /** Over any such run the commands sent never exceed what the measure allowed at its beginning. */
  lemma {:induction false} RunBudget(cfg: Config, may: bool, h: Host, events: seq<Event>)
    requires h.d.w.wanted && Steady(h.d) && Dry(cfg, h, events) && (MayReset(h.d, events) ==> may)
    ensures var t := Run(cfg, h, events);
            t.h.d.w.wanted && Steady(t.h.d) && Budget(cfg, may, t.h.d) + |t.cmds| <= Budget(cfg, may, h.d)
    decreases |events|
  {
    if events != [] {
      EventBudget(cfg, may, h, events[0]);
      assert forall i | 0 <= i < |events[1..]| :: events[1..][i] == events[i + 1];
      RunBudget(cfg, may, After(cfg, h, events[0]), events[1..]);
    }
  }

  /** A start that took effect: the dialer was not already on its way, and now it is. */
  predicate Launched(d: Dial, env: Env) {
    (!d.w.wanted || d.t.stopped) && d.w.apnOk && d.w.kindKnown && d.w.kindEcm && env.portFound
  }

  /** What a start makes available: nothing while an earlier submission is still without its callback. */
  lemma StartBudget(cfg: Config, may: bool, d: Dial, env: Env)
    requires Launched(d, env)
    ensures Budget(cfg, may, StartDial(d, env)) == if d.r.running then 0 else Allowance(cfg, may, d)
    ensures (ResetsLeft(cfg, may, d) + 1) * (|cfg.ladder| + 1) >= 1
  {
    var r := ResetsLeft(cfg, may, d);
    var n := |cfg.ladder| + 1;
    TimesIsProduct(r, n);
    assert (r + 1) * n == r * n + n;
    var s := Fresh(d);
    assert ResetsLeft(cfg, may, s) == r && AttemptsLeft(cfg, may, s) == |cfg.ladder| + Times(r, n);
  }

  /** With r resets still allowed and a ladder of L delays: 11(r+1)(L+1) + r, and 2 more while the activation
      command is unknown. */
  function Allowance(cfg: Config, may: bool, d: Dial): nat {
    var r := ResetsLeft(cfg, may, d);
    11 * ((r + 1) * (|cfg.ladder| + 1)) + r + (if d.r.verb < 0 then 2 else 0)
  }

  function Restarted(h: Host, env: Env): Host { Host(StartDial(h.d, env), h.ledger) }

  /** Termination with its exact bound: after a start no run sends more commands than the allowance, which
      counts resets only where they are, or in the run become, switched on. */
  lemma DialTerminates(cfg: Config, h: Host, env: Env, events: seq<Event>)
    requires Launched(h.d, env) && Dry(cfg, Restarted(h, env), events)
    ensures var sent, may := |Run(cfg, Restarted(h, env), events).cmds|, MayReset(h.d, events);
            var r := ResetsLeft(cfg, may, h.d);
            && sent <= Budget(cfg, may, StartDial(h.d, env)) <= Allowance(cfg, may, h.d)
            && sent <= 13 * ((r + 1) * (|cfg.ladder| + 1)) + r
            && (h.d.r.running ==> sent == 0)
  {
    var may := MayReset(h.d, events);
    StartBudget(cfg, may, h.d, env);
    RunBudget(cfg, may, Restarted(h, env), events);
    AllowanceBelow(ResetsLeft(cfg, may, h.d), |cfg.ladder| + 1);
  }

  lemma AllowanceBelow(r: nat, n: nat)
    requires n >= 1
    ensures 11 * ((r + 1) * n) + r + 2 <= 13 * ((r + 1) * n) + r
  {
  }

  // ---------------------------------------------------------------- the bound is reached

  const NOTHING: Reply := Reply(Timeout, -1, 99, None)

  /** The answer that makes the dialer spend most: every rung succeeds on its last try and no address comes. */
  function WorstReply(d: Dial): Reply {
    match d.r.step
    case Pin => NOTHING.(status := Ok, cpin := 1)
    case Reg => if d.r.sub < 2 then NOTHING else NOTHING.(status := Ok, reg := 1)
    case Apn => NOTHING.(status := Ok)
    case Activate => if d.r.verb < 0 && d.r.sub == 0 then NOTHING else NOTHING.(status := Ok)
    case _ => NOTHING
  }

  /** The next tick of the worst run: as soon as the delay is over, with a wall clock in step. */
  function WorstEvent(d: Dial, clock: nat): Event {
    var now := if d.t.nextTry > clock then d.t.nextTry else clock;
    Ticked(Env(now, now, now / 1000 + 1, true, true, 0, 0, true, true, true, true, true), Answered(WorstReply(d)))
  }

  predicate Clean(d: Dial) {
    && Steady(d)
    && (d.r.step == Reg ==> d.r.sub < 3)
    && (d.r.step == Activate && d.r.verb < 0 ==> d.r.sub < 2)
    && (d.r.step != Ip && d.r.step != Up ==> d.r.ipPolls == 0)
    && (d.r.step == Ip ==> d.r.verb >= 0)
    && d.r.step != Up && !d.r.wasUp
  }

  lemma WorstFail(cfg: Config, may: bool, d: Dial, env: Env)
    requires d.w.wanted && !d.t.stopped && !d.r.wasUp && d.r.verb >= 0 && d.t.attempt <= |cfg.ladder|
    requires env.resetAccepted && d.w.allowReset == may
    ensures var o := Fail(cfg, d, env);
            && Budget(cfg, may, o.d) + |o.cmds| == Reserve(cfg, may, d)
            && o.d.w.wanted && o.d.t.attempt <= |cfg.ladder| && Clean(o.d) && o.d.w.allowReset == may
  {
    var e := Fail(cfg, d, env).d;
    if d.t.attempt < |cfg.ladder| {
      NextAttempt(cfg, may, d, e);
      AtPin(cfg, may, e);
    } else if ResetAllowed(cfg, d) {
      NextLadder(cfg, may, d, e);
      AtPin(cfg, may, e);
    } else {
      assert !Alive(e);
    }
  }

  lemma WorstReplyStep(cfg: Config, may: bool, d: Dial, clock: nat)
    requires Alive(d) && Clean(d) && d.t.attempt <= |cfg.ladder| && d.w.allowReset == may
    requires Due(d, WorstEvent(d, clock).env).Some?
    ensures var env := WorstEvent(d, clock).env;
            var o := OnReply(cfg, Busying(d), env, Due(d, env).value, WorstReply(d));
            && Budget(cfg, may, o.d) + |o.cmds| + 1 == Budget(cfg, may, d)
            && Clean(o.d) && o.d.t.attempt <= |cfg.ladder| && o.d.w.allowReset == may
  {
    var env := WorstEvent(d, clock).env;
    var o := OnReply(cfg, Busying(d), env, Due(d, env).value, WorstReply(d));
    Split(cfg, may, d);
    if d.r.step == Ip && d.r.ipPolls + 1 == IP_MAX_POLLS {
      var f := Polled(Answer(Busying(d)));
      WorstFail(cfg, may, f, env);
      SameReserve(cfg, may, d, f);
    } else {
      assert o == Quietly(WorstNext(d, env));
      SameReserve(cfg, may, d, o.d);
      Split(cfg, may, o.d);
    }
  }

  /** Where the worst answer leads, the last failed poll apart. */
  function WorstNext(d: Dial, env: Env): Dial {
    var e := Answer(Busying(d));
    match d.r.step
    case Pin => To(At(e, 0), Reg)
    case Reg => if d.r.sub < 2 then At(NextDomain(e), 0) else To(At(e, 0), Apn)
    case Apn => To(At(e, 0), Activate)
    case Activate =>
      if d.r.verb >= 0 then To(At(e, 0), Ip)
      else if d.r.sub == 0 then At(SecondProbe(e), 0) else At(Verbed(e, d.r.sub), 0)
    case _ => At(Polled(e), env.later + IP_GAP_MS)
  }

  lemma WorstStep(cfg: Config, may: bool, h: Host, clock: nat)
    requires Alive(h.d) && Clean(h.d) && h.d.t.attempt <= |cfg.ladder| && h.d.w.allowReset == may
    ensures var o := Apply(cfg, h, WorstEvent(h.d, clock));
            && Budget(cfg, may, o.d) + |o.cmds| == Budget(cfg, may, h.d) && |o.cmds| >= 1
            && Clean(o.d) && o.d.t.attempt <= |cfg.ladder| && o.d.w.allowReset == may
  {
    var env := WorstEvent(h.d, clock).env;
    var s := SyncKind(h.d, env);
    SyncBudget(cfg, may, h.d, env);
    assert GateOpen(s, env) && Due(s, env).Some?;
    assert WorstEvent(s, clock) == WorstEvent(h.d, clock);
    WorstReplyStep(cfg, may, s, clock);
  }

  predicate AllTicks(events: seq<Event>) { forall i :: 0 <= i < |events| ==> events[i].Ticked? }

  ghost predicate Spends(cfg: Config, may: bool, h: Host, events: seq<Event>) {
    AllTicks(events) && Dry(cfg, h, events) && |Run(cfg, h, events).cmds| == Budget(cfg, may, h.d)
  }

  /** One tick of the worst run loses what it sends. */
  ghost predicate Costs(cfg: Config, may: bool, h: Host, e: Event, next: Host) {
    && next == After(cfg, h, e) && e.Ticked? && NoAddress(h.d, e.fate)
    && Budget(cfg, may, next.d) + |Apply(cfg, h, e).cmds| == Budget(cfg, may, h.d)
  }

  lemma Worst(cfg: Config, may: bool, h: Host, clock: nat) returns (e: Event, next: Host)
    requires Alive(h.d) && Clean(h.d) && h.d.t.attempt <= |cfg.ladder| && h.d.w.allowReset == may
    ensures Costs(cfg, may, h, e, next) && Budget(cfg, may, next.d) < Budget(cfg, may, h.d)
    ensures Clean(next.d) && next.d.t.attempt <= |cfg.ladder| && next.d.w.allowReset == may
  {
    e := WorstEvent(h.d, clock);
    next := After(cfg, h, e);
    WorstStep(cfg, may, h, clock);
  }

  lemma SpendsFirst(cfg: Config, may: bool, h: Host, e: Event, next: Host, more: seq<Event>)
    requires Costs(cfg, may, h, e, next) && Spends(cfg, may, next, more)
    ensures Spends(cfg, may, h, [e] + more)
  {
    assert ([e] + more)[1..] == more;
  }

  lemma {:induction false} WorstRunSpends(cfg: Config, may: bool, h: Host, clock: nat) returns (events: seq<Event>)
    requires Clean(h.d) && h.d.t.attempt <= |cfg.ladder| && h.d.w.allowReset == may
    ensures Spends(cfg, may, h, events)
    decreases Budget(cfg, may, h.d)
  {
    events := [];
    if Alive(h.d) && Budget(cfg, may, h.d) > 0 {
      var e, next := Worst(cfg, may, h, clock);
      var more := WorstRunSpends(cfg, may, next, e.env.now);
      SpendsFirst(cfg, may, h, e, next, more);
      events := [e] + more;
    }
  }

  /** No smaller bound is true: for every ladder, limit and history some run sends exactly that many, resets
      being off throughout, or switched on at its beginning if they were not. */
  lemma BoundIsReached(cfg: Config, h: Host, env: Env, may: bool) returns (events: seq<Event>)
    requires Launched(h.d, env) && (h.d.w.allowReset ==> may)
    ensures Dry(cfg, Restarted(h, env), events) && MayReset(h.d, events) == may
    ensures |Run(cfg, Restarted(h, env), events).cmds| == if h.d.r.running then 0 else Allowance(cfg, may, h.d)
  {
    var s := Restarted(h, env);
    StartBudget(cfg, may, h.d, env);
    if h.d.w.allowReset == may {
      events := WorstRunSpends(cfg, may, s, 0);
    } else {
      var on := Configured(true, true, s.d.w.autostart);
      ConfigureBudget(cfg, may, s.d, true, true, s.d.w.autostart);
      var more := WorstRunSpends(cfg, may, After(cfg, s, on), 0);
      events := [on] + more;
      assert events[1..] == more && SwitchesOn(events[0]);
    }
  }

  /** With the values of net.h: 269 commands, and 68 while resets are switched off. */
  lemma Fm160Bound(h: Host, env: Env, events: seq<Event>)
    requires Launched(h.d, env) && Dry(FM160, Restarted(h, env), events) && h.d.t.inWindow >= 0
    ensures |Run(FM160, Restarted(h, env), events).cmds| <= if MayReset(h.d, events) then 269 else 68
  {
    DialTerminates(FM160, h, env, events);
    var r := ResetsLeft(FM160, MayReset(h.d, events), h.d);
    assert |FM160.ladder| + 1 == 6 && r <= 3;
    assert (r + 1) * 6 <= 24;
  }
}

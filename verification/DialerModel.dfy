/** The ECM dialer of fm160d/src/dialer.c as functions on a record.

    The transport is synchronous, so a tick and the modem's answer to what the tick submitted are one
    step.  What the parsers of net.c make of an answer is part of the step's input. */
module DialerModel {
  import opened Options

  datatype Step = Idle | Pin | Reg | Apn | Activate | Ip | Up | Busy | Failed | Down

  /** The ladder of back-off delays in seconds, the reset limit and its window, and the ledger's length. */
  datatype Config = Config(ladder: seq<nat>, limit: nat, window: nat)

  const LEDGER_MAX: nat := 8
  const REG_SUBS: nat := 3
  const PROBE_SUBS: nat := 2
  const IP_MAX_POLLS: nat := 5
  const IP_GAP_MS: nat := 2000
  const SUPERVISE_MS: nat := 60000
  const POST_RESET_MS: nat := 30000
  const REACTIVATE_MS: nat := 1000
  const RESUBMIT_MS: nat := 2000
  const NEVER: nat := 0xFFFF_FFFF_FFFF_FFFF

  /** The values of fm160d/src/net.h and net.c. */
  const FM160: Config := Config([0, 5, 15, 60, 300], 3, 86400)

  /** The wall-clock stamps of past resets, newest first, and their total, as kept in the configuration store. */
  datatype Ledger = Ledger(stamps: Option<seq<int>>, total: Option<int>)

  /** Where the present attempt is. */
  datatype Rung = Rung(step: Step, sub: nat, verb: int, ipPolls: nat, up: bool, wasUp: bool, running: bool)

  /** How often it has failed, when it goes on, and the resets it made. */
  datatype Tries = Tries(attempt: nat, nextTry: nat, stopped: bool, inWindow: int, total: int)

  /** What the user and the options ask for, and the profile. */
  datatype Wish = Wish(
    wanted: bool, kindKnown: bool, kindEcm: bool, apnOk: bool, allowReset: bool, autostart: bool, autostartDone: bool,
    configError: bool)

  datatype Dial = Dial(r: Rung, t: Tries, w: Wish)

  /** The dialer together with what outlives the daemon. */
  datatype Host = Host(d: Dial, ledger: Ledger)

  datatype Command =
    QueryPin | QueryReg(sub: nat) | SetApn | Probe(verb: int) | Deactivate | DoActivate | ReadContext | ResetModule

  datatype Status = Ok | Error | Timeout | NoPort

  /** The modem's answer: its status and what the parsers find in its text. */
  datatype Reply = Reply(status: Status, cpin: int, reg: int, wwan: Option<Wwan>)

  datatype Wwan = Wwan(valid: bool, active: int, hasAddr: bool, addrOk: bool)

  /** What becomes of a submission: refused by the queue, accepted but never called back, or answered. */
  datatype Fate = Rejected | Lost | Answered(reply: Reply)

  /** What a step reads: the clocks before and after the exchange, the gates, the profile, whether the
      commands can be built, and whether a module reset would be accepted by the queue. */
  datatype Env = Env(
    now: nat, later: nat, wall: int, enabled: bool, portFound: bool, atState: nat, depth: nat,
    kindKnown: bool, kindEcm: bool, apnBuilds: bool, activateBuilds: bool, resetAccepted: bool)

  /** The new state, the commands the queue accepted, and the wall-clock times of module resets. */
  datatype Out = Out(d: Dial, cmds: seq<Command>, resets: seq<int>)

  // ---------------------------------------------------------------- the ledger

  predicate InWindow(cfg: Config, now: int, ts: int) { ts > 0 && now >= ts && now - ts < cfg.window }

  function CountInWindow(cfg: Config, now: int, stamps: seq<int>): nat {
    if stamps == [] then 0 else (if InWindow(cfg, now, stamps[0]) then 1 else 0) + CountInWindow(cfg, now, stamps[1..])
  }

  function First(stamps: seq<int>, n: nat): seq<int> { if |stamps| <= n then stamps else stamps[..n] }

  /** The leading stamps that a new reset keeps: the scan stops at the first one outside the window. */
  function Kept(cfg: Config, now: int, stamps: seq<int>): seq<int> {
    if stamps == [] || stamps[0] <= 0 || now - stamps[0] >= cfg.window then []
    else [stamps[0]] + Kept(cfg, now, stamps[1..])
  }

  function Stamps(ledger: Ledger): seq<int> { if ledger.stamps.Some? then ledger.stamps.value else [] }

  function Load(cfg: Config, d: Dial, ledger: Ledger, wall: int): Dial {
    Dial(d.r, d.t.(total := if ledger.total.Some? then ledger.total.value else 0,
                   inWindow := CountInWindow(cfg, wall, First(Stamps(ledger), LEDGER_MAX))), d.w)
  }

  /** The ledger after the resets of one step, of which there is at most one. */
  function Note(cfg: Config, ledger: Ledger, resets: seq<int>, total: int): Ledger {
    if resets == [] then ledger
    else Ledger(Some([resets[0]] + Kept(cfg, resets[0], First(Stamps(ledger), LEDGER_MAX - 1))), Some(total))
  }

  // ---------------------------------------------------------------- failing

  function To(d: Dial, step: Step): Dial { Dial(d.r.(step := step, sub := 0), d.t, d.w) }

  function At(d: Dial, nextTry: nat): Dial { Dial(d.r, d.t.(nextTry := nextTry), d.w) }

  function Answer(d: Dial): Dial { Dial(d.r.(running := false), d.t, d.w) }

  function Halted(d: Dial): Dial { Dial(d.r, d.t.(stopped := true), d.w) }

  function StopHealing(d: Dial): Dial { To(At(Halted(d), NEVER), Failed) }

  predicate ResetAllowed(cfg: Config, d: Dial) { d.w.allowReset && d.t.inWindow < cfg.limit }

  function Counted(d: Dial): Dial {
    Dial(d.r, d.t.(total := d.t.total + 1, inWindow := d.t.inWindow + 1, attempt := 0), d.w)
  }

  function Escalate(cfg: Config, d: Dial, env: Env): Out {
    if !ResetAllowed(cfg, d) then Out(StopHealing(d), [], [])
    else
      Out(To(At(Counted(d), env.later + POST_RESET_MS), Pin),
          if env.resetAccepted then [ResetModule] else [], [env.wall])
  }

  function Fallen(d: Dial): Dial { Dial(d.r.(running := false, up := false, ipPolls := 0), d.t, d.w) }

  function Climb(d: Dial): Dial { Dial(d.r, d.t.(attempt := d.t.attempt + 1), d.w) }

  function Fail(cfg: Config, d: Dial, env: Env): Out {
    if d.t.attempt >= |cfg.ladder| then Escalate(cfg, Fallen(d), env)
    else Quietly(To(At(Climb(Fallen(d)), env.later + cfg.ladder[d.t.attempt] * 1000), Pin))
  }

  function Quietly(d: Dial): Out { Out(d, [], []) }

  // ---------------------------------------------------------------- the callbacks

  function OnPin(cfg: Config, d: Dial, env: Env, r: Reply): Out {
    if r.status == Ok && r.cpin == 1 then Quietly(To(At(Answer(d), 0), Reg)) else Fail(cfg, Answer(d), env)
  }

  function NextDomain(d: Dial): Dial { Dial(d.r.(sub := d.r.sub + 1), d.t, d.w) }

  function OnReg(cfg: Config, d: Dial, env: Env, r: Reply): Out {
    if r.status == Ok && (r.reg == 1 || r.reg == 5) then Quietly(To(At(Answer(d), 0), Apn))
    else if d.r.sub + 1 < REG_SUBS then Quietly(At(NextDomain(Answer(d)), 0))
    else Fail(cfg, NextDomain(Answer(d)), env)
  }

  function OnApn(cfg: Config, d: Dial, env: Env, r: Reply): Out {
    if r.status == Ok then Quietly(To(At(Answer(d), 0), Activate)) else Fail(cfg, Answer(d), env)
  }

  function Verbed(d: Dial, verb: int): Dial { Dial(d.r.(verb := verb, sub := 0), d.t, d.w) }

  function SecondProbe(d: Dial): Dial { Dial(d.r.(sub := 1), d.t, d.w) }

  function OnProbe(cfg: Config, d: Dial, env: Env, r: Reply, tried: int): Out {
    if r.status == Ok then Quietly(At(Verbed(Answer(d), tried), 0))
    else if tried == 0 then Quietly(At(SecondProbe(Answer(d)), 0))
    else Fail(cfg, Answer(d), env)
  }

  predicate Readable(r: Reply) { r.status == Ok && r.wwan.Some? && r.wwan.value.valid }

  predicate Inactive(r: Reply) { Readable(r) && r.wwan.value.active == 0 }

  /** Only an answered "not active" fails the rung: a refusal or a timeout is settled by reading back. */
  function OnActivate(cfg: Config, d: Dial, env: Env, r: Reply): Out {
    if Inactive(r) then Fail(cfg, Answer(d), env)
    else Quietly(To(At(Answer(d), 0), Ip))
  }

  /** The read-back carries an address this host accepts. */
  predicate Addressed(r: Reply) {
    Readable(r) && r.wwan.value.active != 0 && r.wwan.value.hasAddr && r.wwan.value.addrOk
  }

  function Connected(d: Dial): Dial {
    Dial(d.r.(up := true, wasUp := true, ipPolls := 0, step := Up, sub := 0), d.t.(attempt := 0), d.w)
  }

  function Polled(d: Dial): Dial { Dial(d.r.(ipPolls := d.r.ipPolls + 1), d.t, d.w) }

  function OnIp(cfg: Config, d: Dial, env: Env, r: Reply): Out {
    if Addressed(r) then Quietly(At(Connected(Answer(d)), env.later + SUPERVISE_MS))
    else if Readable(r) && (r.wwan.value.active == 0 || r.wwan.value.hasAddr) then Fail(cfg, Answer(d), env)
    else if d.r.ipPolls + 1 < IP_MAX_POLLS then Quietly(At(Polled(Answer(d)), env.later + IP_GAP_MS))
    else Fail(cfg, Polled(Answer(d)), env)
  }

  function OnDown(d: Dial): Dial {
    Dial(d.r.(running := false, step := Down, sub := 0, up := false, wasUp := false), d.t, d.w)
  }

  // ---------------------------------------------------------------- the tick

  /** The command a tick submits with a callback, if its rung has one to submit. */
  function Due(d: Dial, env: Env): Option<Command> {
    match d.r.step
    case Pin => Some(QueryPin)
    case Reg => if d.r.sub < REG_SUBS then Some(QueryReg(d.r.sub)) else None
    case Apn => if env.apnBuilds then Some(SetApn) else None
    case Activate =>
      if d.r.verb < 0 then if d.r.sub < PROBE_SUBS then Some(Probe(d.r.sub)) else None
      else if d.r.wasUp then None
      else if env.activateBuilds then Some(DoActivate) else None
    case Ip => Some(ReadContext)
    case Up => Some(ReadContext)
    case _ => None
  }

  function OnReply(cfg: Config, d: Dial, env: Env, cmd: Command, r: Reply): Out {
    match cmd
    case QueryPin => OnPin(cfg, d, env, r)
    case QueryReg(_) => OnReg(cfg, d, env, r)
    case SetApn => OnApn(cfg, d, env, r)
    case Probe(v) => OnProbe(cfg, d, env, r, v)
    case DoActivate => OnActivate(cfg, d, env, r)
    case ReadContext => OnIp(cfg, d, env, r)
    case _ => Quietly(d)
  }

  function Busying(d: Dial): Dial { Dial(d.r.(running := true), d.t, d.w) }

  function Submit(cfg: Config, d: Dial, env: Env, cmd: Command, fate: Fate): Out {
    match fate
    case Rejected => Quietly(At(Answer(d), env.later + RESUBMIT_MS))
    case Lost => Out(Busying(d), [cmd], [])
    case Answered(r) =>
      var o := OnReply(cfg, Busying(d), env, cmd, r);
      Out(o.d, [cmd] + o.cmds, o.resets)
  }

  function Rewound(d: Dial): Dial { Dial(d.r.(sub := 0), d.t, d.w) }

  function Unmarked(d: Dial): Dial { Dial(d.r.(wasUp := false), d.t, d.w) }

  function Misconfigured(d: Dial): Dial { Dial(d.r, d.t, d.w.(configError := true)) }

  /** What a rung does when it has no command to submit with a callback. */
  function Stuck(cfg: Config, d: Dial, env: Env, fate: Fate): Out {
    match d.r.step
    case Reg => Fail(cfg, Rewound(d), env)
    case Apn => Quietly(StopHealing(Misconfigured(d)))
    case Activate =>
      if d.r.verb < 0 then Fail(cfg, Rewound(d), env)
      else if d.r.wasUp then
        if env.activateBuilds then
          Out(At(Unmarked(d), env.now + REACTIVATE_MS), if fate.Rejected? then [] else [Deactivate], [])
        else Quietly(Unmarked(d))
      else Fail(cfg, d, env)
    case _ => Quietly(d)
  }

  /** What the rung of a tick does. */
  function Turn(cfg: Config, d: Dial, env: Env, fate: Fate): Out {
    if Due(d, env).Some? then Submit(cfg, d, env, Due(d, env).value, fate) else Stuck(cfg, d, env, fate)
  }

  predicate GateOpen(d: Dial, env: Env) {
    && d.w.wanted && !d.t.stopped && env.portFound && env.atState < 2
    && !d.r.running && env.now >= d.t.nextTry && env.depth < 3
  }

  function SyncKind(d: Dial, env: Env): Dial {
    Dial(d.r, d.t, d.w.(kindKnown := env.kindKnown, kindEcm := env.kindKnown && env.kindEcm))
  }

  predicate AutostartDue(d: Dial) {
    d.w.autostart && !d.w.autostartDone && d.w.kindKnown && !d.w.wanted && !d.w.configError
  }

  function Fresh(d: Dial): Dial {
    Dial(d.r.(ipPolls := 0, wasUp := false, up := false, step := Pin, sub := 0),
         d.t.(stopped := false, attempt := 0, nextTry := 0), d.w.(configError := false, wanted := true))
  }

  function StartDial(d: Dial, env: Env): Dial {
    if d.w.wanted && !d.t.stopped then d
    else if !d.w.apnOk then Misconfigured(d)
    else if !(d.w.kindKnown && d.w.kindEcm) || !env.portFound then d
    else Fresh(d)
  }

  function Autostarted(d: Dial): Dial { Dial(d.r, d.t, d.w.(autostartDone := true)) }

  function Tick(cfg: Config, d: Dial, env: Env, fate: Fate): Out {
    if !env.enabled then Quietly(d)
    else
      var s := SyncKind(d, env);
      var t := if AutostartDue(s) then StartDial(Autostarted(s), env) else s;
      if !GateOpen(t, env) then Quietly(t)
      else Turn(cfg, t, env, fate)
  }

  function Unwanted(d: Dial): Dial {
    Dial(d.r.(up := false, ipPolls := 0, sub := 0, step := Down), d.t.(nextTry := 0),
         d.w.(wanted := false, configError := false))
  }

  function StopDial(d: Dial, env: Env, fate: Fate): Out {
    if !d.w.wanted && d.r.step == Down then Quietly(d)
    else if d.r.verb < 0 || !env.activateBuilds then Quietly(Unwanted(d))
    else
      match fate
      case Rejected => Quietly(At(Answer(Unwanted(d)), env.later + RESUBMIT_MS))
      case Lost => Out(Busying(Unwanted(d)), [Deactivate], [])
      case Answered(_) => Out(OnDown(Unwanted(d)), [Deactivate], [])
  }

  const BLANK: Dial := Dial(Rung(Idle, 0, -1, 0, false, false, false), Tries(0, 0, false, 0, 0),
                            Wish(false, false, false, false, false, false, false, false))

  /** The daemon is started again: everything but the ledger is forgotten. */
  function Boot(cfg: Config, ledger: Ledger, wall: int): Dial {
    Load(cfg, BLANK, ledger, wall)
  }

  /** The options are read again. */
  function Configure(d: Dial, apnOk: bool, allowReset: bool, autostart: bool): Dial {
    Dial(d.r, d.t, d.w.(apnOk := d.w.apnOk || apnOk, allowReset := allowReset, autostart := autostart,
                        autostartDone := d.w.autostartDone && autostart))
  }

  // ---------------------------------------------------------------- runs

  datatype Event =
    | Ticked(env: Env, fate: Fate)
    | Started(env: Env)
    | Stopped(env: Env, fate: Fate)
    | Configured(apnOk: bool, allowReset: bool, autostart: bool)
    | Rebooted(wall: int)

  function Apply(cfg: Config, h: Host, e: Event): Out {
    match e
    case Ticked(env, fate) => Tick(cfg, h.d, env, fate)
    case Started(env) => Quietly(StartDial(h.d, env))
    case Stopped(env, fate) => StopDial(h.d, env, fate)
    case Configured(apnOk, allowReset, autostart) => Quietly(Configure(h.d, apnOk, allowReset, autostart))
    case Rebooted(wall) => Quietly(Boot(cfg, h.ledger, wall))
  }

  function After(cfg: Config, h: Host, e: Event): Host {
    var o := Apply(cfg, h, e);
    Host(o.d, Note(cfg, h.ledger, o.resets, o.d.t.total))
  }

  /** A whole run: where it ends, every command it sent and the time of every module reset. */
  datatype Trip = Trip(h: Host, cmds: seq<Command>, resets: seq<int>)

  function Run(cfg: Config, h: Host, events: seq<Event>): Trip
    decreases |events|
  {
    if events == [] then Trip(h, [], [])
    else
      var first := Apply(cfg, h, events[0]);
      var rest := Run(cfg, After(cfg, h, events[0]), events[1..]);
      Trip(rest.h, first.cmds + rest.cmds, first.resets + rest.resets)
  }
}

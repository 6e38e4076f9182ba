/** What each answer does to a dial, and that a modem which answers well is dialled (fm160d/src/dialer.c:385-741). */
module DialerClimb {
  import opened DialerBound
  import opened DialerModel
  import opened Options

  // ---------------------------------------------------------------- when a tick acts

  /** A tick acts only while the daemon manages the modem, the link is wanted, no answer is owed, the back-off is
      over, and the queue is short. */
  predicate Acts(d: Dial, env: Env) {
    && env.enabled && env.portFound && env.atState < 2 && env.depth < 3
    && d.w.wanted && !d.t.stopped && !d.r.running && d.t.nextTry <= env.now
  }

  /** A tick that does not act on a wanted link changes nothing but what is known of its profile. */
  lemma QuietTick(cfg: Config, d: Dial, env: Env, fate: Fate)
    requires d.w.wanted && !Acts(d, env)
    ensures var o := Tick(cfg, d, env, fate);
            && o.cmds == [] && o.resets == [] && o.d.r == d.r && o.d.t == d.t
            && o.d.w == d.w.(kindKnown := o.d.w.kindKnown, kindEcm := o.d.w.kindEcm)
  {
  }

  lemma ActingTick(cfg: Config, d: Dial, env: Env, fate: Fate)
    requires Acts(d, env)
    ensures Tick(cfg, d, env, fate) == Turn(cfg, SyncKind(d, env), env, fate)
  {
  }

  /** Until the back-off is over nothing is sent. */
  lemma {:induction false} BacksOff(cfg: Config, h: Host, events: seq<Event>)
    requires h.d.w.wanted && forall e | e in events :: e.Ticked? && e.env.now < h.d.t.nextTry
    ensures var t := Run(cfg, h, events);
            t.cmds == [] && t.resets == [] && t.h.d.r == h.d.r && t.h.d.t == h.d.t && t.h.d.w.wanted
    decreases |events|
  {
    if events != [] {
      assert events[0] in events;
      QuietTick(cfg, h.d, events[0].env, events[0].fate);
      BacksOff(cfg, After(cfg, h, events[0]), events[1..]);
    }
  }

  // ---------------------------------------------------------------- what an answer does

  predicate Registered(r: Reply) { r.status == Ok && (r.reg == 1 || r.reg == 5) }

  /** The answer holds a context that could be read. */
  predicate Tells(r: Reply) { r.status == Ok && r.wwan.Some? && r.wwan.value.valid }

  /** Which answers fail the rung.  An activation that is refused or not answered does not: only "not active" is
      a failure, anything else is settled by reading the context. */
  predicate Fails(d: Dial, r: Reply) {
    match d.r.step
    case Pin => r.status != Ok || r.cpin != 1
    case Reg => !Registered(r) && d.r.sub == 2
    case Apn => r.status != Ok
    case Activate =>
      if d.r.verb < 0 then r.status != Ok && d.r.sub == 1 else Tells(r) && r.wwan.value.active == 0
    case _ =>
      if !Tells(r) then d.r.ipPolls == 4
      else if r.wwan.value.active == 0 then true
      else if r.wwan.value.hasAddr then !r.wwan.value.addrOk
      else d.r.ipPolls == 4
  }

  /** The next attempt after the ladder's delay; behind the last one a reset if it is still allowed, and 30 s for
      the modem to come back; or the end. */
  predicate FallsBack(cfg: Config, d: Dial, env: Env, sent: seq<Command>, o: Out) {
    && !o.d.r.running && !o.d.r.up && o.d.r.ipPolls == 0 && o.d.r.sub == 0
    && o.d.r.verb == d.r.verb && o.d.r.wasUp == d.r.wasUp && o.d.w.wanted == d.w.wanted
    && if d.t.attempt < |cfg.ladder| then
         && o.cmds == sent && o.resets == [] && o.d.r.step == Pin && o.d.t.attempt == d.t.attempt + 1
         && o.d.t.nextTry == env.later + 1000 * cfg.ladder[d.t.attempt] && !o.d.t.stopped
       else if d.w.allowReset && d.t.inWindow < cfg.limit then
         && o.cmds == sent + (if env.resetAccepted then [ResetModule] else [])
         && o.resets == [env.wall] && o.d.r.step == Pin && o.d.t.attempt == 0
         && o.d.t.nextTry == env.later + 30000 && !o.d.t.stopped && o.d.t.inWindow == d.t.inWindow + 1
       else
         o.cmds == sent && o.resets == [] && o.d.r.step == Failed && o.d.t.stopped
  }

  /** Where an answer that does not fail the rung leads, and when the next command may go. */
  predicate MovesOn(d: Dial, env: Env, r: Reply, e: Dial) {
    match d.r.step
    case Pin => e.r.step == Reg && e.r.sub == 0 && e.t.nextTry == 0
    case Reg =>
      && e.t.nextTry == 0
      && if Registered(r) then e.r.step == Apn else e.r.step == Reg && e.r.sub == d.r.sub + 1
    case Apn => e.r.step == Activate && e.r.sub == 0 && e.t.nextTry == 0
    case Activate =>
      && e.t.nextTry == 0
      && if d.r.verb >= 0 then e.r.step == Ip
         else e.r.step == Activate && if r.status == Ok then e.r.verb == d.r.sub else e.r.verb < 0 && e.r.sub == 1
    case _ =>
      if Tells(r) && r.wwan.value.active != 0 && r.wwan.value.hasAddr then
        && e.r.step == Up && e.r.up && e.r.wasUp && e.r.ipPolls == 0 && e.t.nextTry == env.later + 60000
      else e.r.step == d.r.step && e.r.ipPolls == d.r.ipPolls + 1 && e.t.nextTry == env.later + 2000
  }

  /** The rungs on which the dialer waits for an answer, with their counts in range. */
  predicate OnRung(d: Dial) {
    match d.r.step
    case Pin => true
    case Reg => d.r.sub <= 2
    case Apn => true
    case Activate => if d.r.verb < 0 then d.r.sub <= 1 else !d.r.wasUp
    case Ip => d.r.ipPolls <= 4
    case Up => d.r.ipPolls <= 4
    case _ => false
  }

  function Order(d: Dial): Command
    requires OnRung(d)
  {
    match d.r.step
    case Pin => QueryPin
    case Reg => QueryReg(d.r.sub)
    case Apn => SetApn
    case Activate => if d.r.verb < 0 then Probe(d.r.sub) else DoActivate
    case _ => ReadContext
  }

  lemma DueIsOrder(d: Dial, env: Env)
    requires OnRung(d) && env.apnBuilds && env.activateBuilds
    ensures Due(d, env) == Some(Order(d))
  {
  }

  lemma FailFallsBack(cfg: Config, d: Dial, f: Dial, env: Env, sent: seq<Command>)
    requires f.t == d.t && f.w == d.w && f.r.verb == d.r.verb && f.r.wasUp == d.r.wasUp && !d.t.stopped
    ensures FallsBack(cfg, d, env, sent, var o := Fail(cfg, f, env); Out(o.d, sent + o.cmds, o.resets))
  {
    if d.t.attempt < |cfg.ladder| {
    } else if ResetAllowed(cfg, Fallen(f)) {
    } else {
    }
  }

  lemma ReplyFails(cfg: Config, d: Dial, env: Env, r: Reply)
    requires OnRung(d) && Fails(d, r) && !d.t.stopped
    ensures var o := OnReply(cfg, Busying(d), env, Order(d), r);
            FallsBack(cfg, d, env, [Order(d)], Out(o.d, [Order(d)] + o.cmds, o.resets))
  {
    var a := Answer(Busying(d));
    if d.r.step == Reg {
      FailFallsBack(cfg, d, NextDomain(a), env, [Order(d)]);
    } else if (d.r.step == Ip || d.r.step == Up) && d.r.ipPolls == 4 {
      FailFallsBack(cfg, d, Polled(a), env, [Order(d)]);
      FailFallsBack(cfg, d, a, env, [Order(d)]);
    } else {
      FailFallsBack(cfg, d, a, env, [Order(d)]);
    }
  }

  /** The attempt goes on, or the link has come up. */
  predicate Keeps(d: Dial, o: Out) {
    && o.cmds == [] && o.resets == [] && !o.d.t.stopped && o.d.t.inWindow == d.t.inWindow
    && o.d.t.attempt == if o.d.r.step == Up && o.d.r.ipPolls == 0 then 0 else d.t.attempt
  }

  lemma ReplyMoves(cfg: Config, d: Dial, env: Env, r: Reply)
    requires OnRung(d) && !Fails(d, r) && !d.t.stopped
    ensures var o := OnReply(cfg, Busying(d), env, Order(d), r);
            MovesOn(d, env, r, o.d) && Keeps(d, o) && !o.d.r.running && o.d.w == d.w
  {
    match d.r.step
    case Pin =>
    case Reg =>
    case Apn =>
    case Activate =>
    case Ip => ReadMoves(cfg, d, env, r);
    case Up => ReadMoves(cfg, d, env, r);
  }

  lemma ReadMoves(cfg: Config, d: Dial, env: Env, r: Reply)
    requires OnRung(d) && (d.r.step == Ip || d.r.step == Up) && !Fails(d, r) && !d.t.stopped
    ensures var o := OnIp(cfg, Busying(d), env, r);
            MovesOn(d, env, r, o.d) && Keeps(d, o) && !o.d.r.running && o.d.w == d.w
  {
    if Tells(r) && r.wwan.value.active != 0 && r.wwan.value.hasAddr {
      assert Addressed(r);
    }
  }

  lemma AnsweredIs(cfg: Config, d: Dial, env: Env, r: Reply)
    requires Acts(d, env) && OnRung(d) && env.apnBuilds && env.activateBuilds
    ensures var s := SyncKind(d, env);
            var o := OnReply(cfg, Busying(s), env, Order(d), r);
            Tick(cfg, d, env, Answered(r)) == Out(o.d, [Order(d)] + o.cmds, o.resets)
  {
    ActingTick(cfg, d, env, Answered(r));
    DueIsOrder(SyncKind(d, env), env);
  }

  /** An answer fails the rung exactly where `Fails` says, and then the dialer falls back. */
  lemma FailureFallsBack(cfg: Config, d: Dial, env: Env, r: Reply)
    requires Acts(d, env) && OnRung(d) && env.apnBuilds && env.activateBuilds && Fails(d, r)
    ensures FallsBack(cfg, d, env, [Order(d)], Tick(cfg, d, env, Answered(r)))
  {
    AnsweredIs(cfg, d, env, r);
    ReplyFails(cfg, SyncKind(d, env), env, r);
  }

  /** Otherwise it moves on to the next rung or the next try of this one, with the same attempt unless the link
      has come up, and without a reset. */
  lemma SuccessMovesOn(cfg: Config, d: Dial, env: Env, r: Reply)
    requires Acts(d, env) && OnRung(d) && env.apnBuilds && env.activateBuilds && !Fails(d, r)
    ensures var o := Tick(cfg, d, env, Answered(r));
            && MovesOn(d, env, r, o.d) && Keeps(d, Out(o.d, [], o.resets)) && o.cmds == [Order(d)]
            && !o.d.r.running && o.d.w.wanted
  {
    AnsweredIs(cfg, d, env, r);
    ReplyMoves(cfg, SyncKind(d, env), env, r);
  }

  // ---------------------------------------------------------------- a modem that answers well

  /** The answer that takes the dialer on.  Whatever an activation is answered with will do, short of "not active". */
  predicate Helps(d: Dial, r: Reply) {
    match d.r.step
    case Pin => r.status == Ok && r.cpin == 1
    case Reg => Registered(r)
    case Apn => r.status == Ok
    case Activate => if d.r.verb < 0 then r.status == Ok else !(Tells(r) && r.wwan.value.active == 0)
    case _ => Tells(r) && r.wwan.value.active != 0 && r.wwan.value.hasAddr && r.wwan.value.addrOk
  }

  /** Every tick that acts is answered so. */
  predicate Helped(cfg: Config, h: Host, events: seq<Event>)
    decreases |events|
  {
    events == [] ||
    (&& events[0].Ticked? && events[0].env.apnBuilds && events[0].env.activateBuilds && events[0].fate.Answered?
     && (Acts(h.d, events[0].env) ==> Helps(h.d, events[0].fate.reply))
     && Helped(cfg, After(cfg, h, events[0]), events[1..]))
  }

  /** How many ticks of a run act. */
  function Acting(cfg: Config, h: Host, events: seq<Event>): nat
    decreases |events|
  {
    if events == [] then 0
    else
      (if events[0].Ticked? && Acts(h.d, events[0].env) then 1 else 0)
      + Acting(cfg, After(cfg, h, events[0]), events[1..])
  }

  /** Commands between here and the link being up. */
  function ToGo(d: Dial): nat {
    var probe := if d.r.verb < 0 then 1 else 0;
    match d.r.step
    case Pin => 5 + probe
    case Reg => 4 + probe
    case Apn => 3 + probe
    case Activate => 2 + probe
    case Ip => 1
    case _ => 0
  }

  /** On the way up without a failure so far, or up. */
  predicate Climbing(d: Dial) {
    && d.w.wanted && !d.t.stopped && !d.r.running && OnRung(d) && d.t.attempt == 0 && d.r.ipPolls == 0
    && (d.r.step == Reg || d.r.step == Activate ==> d.r.sub == 0)
    && (d.r.step == Up ==> d.r.up) && (d.r.step != Up ==> !d.r.wasUp)
  }

  lemma HelpDoesNotFail(d: Dial, r: Reply)
    requires OnRung(d) && Helps(d, r)
    ensures !Fails(d, r)
  {
  }

  lemma ClimbTick(cfg: Config, d: Dial, env: Env, r: Reply)
    requires Climbing(d) && Acts(d, env) && env.apnBuilds && env.activateBuilds && Helps(d, r)
    ensures var o := Tick(cfg, d, env, Answered(r));
            && Climbing(o.d) && o.resets == [] && |o.cmds| == 1 && o.d.t.inWindow == d.t.inWindow
            && ToGo(o.d) == if ToGo(d) > 0 then ToGo(d) - 1 else 0
  {
    HelpDoesNotFail(d, r);
    SuccessMovesOn(cfg, d, env, r);
    AnsweredIs(cfg, d, env, r);
    var s := SyncKind(d, env);
    assert OnReply(cfg, Busying(s), env, Order(d), r).d == Helpful(s, env, r);
  }

  /** The state such an answer leaves. */
  function Helpful(d: Dial, env: Env, r: Reply): Dial {
    var e := Answer(Busying(d));
    match d.r.step
    case Pin => To(At(e, 0), Reg)
    case Reg => To(At(e, 0), Apn)
    case Apn => To(At(e, 0), Activate)
    case Activate => if d.r.verb < 0 then At(Verbed(e, d.r.sub), 0) else To(At(e, 0), Ip)
    case _ => At(Connected(e), env.later + SUPERVISE_MS)
  }

  lemma {:induction false} Climbs(cfg: Config, h: Host, events: seq<Event>)
    requires Climbing(h.d) && Helped(cfg, h, events)
    ensures var t, n := Run(cfg, h, events), Acting(cfg, h, events);
            && Climbing(t.h.d) && t.resets == [] && |t.cmds| == n && t.h.d.t.inWindow == h.d.t.inWindow
            && ToGo(t.h.d) == if n < ToGo(h.d) then ToGo(h.d) - n else 0
    decreases |events|
  {
    if events != [] {
      var e := events[0];
      if Acts(h.d, e.env) {
        ClimbTick(cfg, h.d, e.env, e.fate.reply);
      } else {
        QuietTick(cfg, h.d, e.env, e.fate);
      }
      Climbs(cfg, After(cfg, h, e), events[1..]);
    }
  }

  /** A dial comes up: from any start that takes effect, with a modem that answers well, the fifth command (the
      sixth while the activation command is unknown) brings the link up, on the first attempt and without a
      reset, and it stays up; before that it is not up. */
  lemma DialComesUp(cfg: Config, h: Host, env: Env, events: seq<Event>)
    requires Launched(h.d, env) && !h.d.r.running && Helped(cfg, Restarted(h, env), events)
    ensures var t, n := Run(cfg, Restarted(h, env), events), Acting(cfg, Restarted(h, env), events);
            && t.resets == [] && |t.cmds| == n && t.h.d.t.attempt == 0 && !t.h.d.t.stopped
            && (t.h.d.r.step == Up <==> n >= if h.d.r.verb < 0 then 6 else 5)
            && (t.h.d.r.step == Up ==> t.h.d.r.up)
    ensures Restarted(h, env).d.t.nextTry == 0
  {
    Climbs(cfg, Restarted(h, env), events);
  }

  // ---------------------------------------------------------------- going down

  /** A link that was up is deactivated, once, before it is activated again a second later. */
  lemma DeactivatedOnce(cfg: Config, d: Dial, env: Env, fate: Fate)
    requires Acts(d, env) && d.r.step == Activate && d.r.verb >= 0 && d.r.wasUp && env.activateBuilds
    ensures var o := Tick(cfg, d, env, fate);
            && o.cmds == (if fate == Rejected then [] else [Deactivate]) && o.resets == []
            && o.d.r == d.r.(wasUp := false) && o.d.t == d.t.(nextTry := env.now + 1000)
            && OnRung(o.d) && Order(o.d) == DoActivate
  {
    ActingTick(cfg, d, env, fate);
  }

  /** What a stop leaves: nothing is wanted, and the link is down. */
  predicate TakenDown(d: Dial, env: Env, fate: Fate, o: Out) {
    var told := d.r.verb >= 0 && env.activateBuilds;
    && !o.d.w.wanted && !o.d.w.configError && !o.d.r.up && o.d.r.step == Down && o.d.r.verb == d.r.verb
    && o.resets == [] && o.cmds == (if told && fate != Rejected then [Deactivate] else [])
    && o.d.r.running == (if !told then d.r.running else fate == Lost)
    && o.d.r.wasUp == (d.r.wasUp && !(told && fate.Answered?))
    && o.d.t.nextTry == (if told && fate == Rejected then env.later + 2000 else 0)
  }

  /** A stop takes the wish and the link down, sending the disconnect where the activation command is known and can
      be built, and nothing else. */
  lemma StopTakesDown(cfg: Config, d: Dial, env: Env, fate: Fate)
    requires d.w.wanted || d.r.step != Down
    ensures TakenDown(d, env, fate, StopDial(d, env, fate))
  {
    if d.r.verb >= 0 && env.activateBuilds {
      match fate
      case Rejected => assert StopDial(d, env, fate).cmds == [];
      case Lost => assert StopDial(d, env, fate).cmds == [Deactivate];
      case Answered(_) => assert StopDial(d, env, fate).cmds == [Deactivate];
    }
  }

  /** A link that is not wanted stays down: nothing is sent and nothing reset, unless an autostart is still due. */
  lemma {:induction false} StaysDown(cfg: Config, h: Host, events: seq<Event>)
    requires !h.d.w.wanted && (!h.d.w.autostart || h.d.w.autostartDone) && forall e | e in events :: e.Ticked?
    ensures var t := Run(cfg, h, events);
            t.cmds == [] && t.resets == [] && !t.h.d.w.wanted && t.h.d.r == h.d.r && t.h.d.t == h.d.t
    decreases |events|
  {
    if events != [] {
      assert events[0] in events;
      StaysDown(cfg, After(cfg, h, events[0]), events[1..]);
    }
  }

  /** An autostart is tried once: with the kind of link known it counts as done, whether or not the dialer could be
      started, and the link is wanted exactly where it could. */
  lemma AutostartsOnce(cfg: Config, d: Dial, env: Env, fate: Fate)
    requires env.enabled && env.kindKnown && d.w.autostart && !d.w.autostartDone && !d.w.wanted && !d.w.configError
    ensures var o := Tick(cfg, d, env, fate);
            && o.d.w.autostartDone
            && (o.d.w.wanted <==> d.w.apnOk && env.kindEcm && env.portFound)
  {
    var s := Autostarted(SyncKind(d, env));
    StartKeeps(s, env);
    if StartDial(s, env).w.wanted { FirstTurnKeepsWish(cfg, StartDial(s, env), env, fate); }
  }

  lemma StartKeeps(d: Dial, env: Env)
    requires !d.w.wanted
    ensures StartDial(d, env).w.autostartDone == d.w.autostartDone
    ensures StartDial(d, env).w.wanted <==> d.w.apnOk && d.w.kindKnown && d.w.kindEcm && env.portFound
    ensures StartDial(d, env).w.wanted ==> StartDial(d, env).r.step == Pin
  {
  }

  lemma FirstTurnKeepsWish(cfg: Config, d: Dial, env: Env, fate: Fate)
    requires d.r.step == Pin
    ensures Turn(cfg, d, env, fate).d.w == d.w
  {
    if fate.Answered? { ReplyKeepsWish(cfg, Busying(d), env, QueryPin, fate.reply); }
  }

  lemma ReplyKeepsWish(cfg: Config, d: Dial, env: Env, cmd: Command, r: Reply)
    ensures OnReply(cfg, d, env, cmd, r).d.w == d.w
  {
  }

  /** And only then: any other tick on a link that is not wanted starts nothing. */
  lemma AutostartsOnlyThen(cfg: Config, d: Dial, env: Env, fate: Fate)
    requires !d.w.wanted
    requires !env.enabled || !env.kindKnown || !d.w.autostart || d.w.autostartDone || d.w.configError
    ensures var o := Tick(cfg, d, env, fate);
            && !o.d.w.wanted && o.d.w.autostartDone == d.w.autostartDone && o.cmds == [] && o.resets == []
            && o.d.r == d.r && o.d.t == d.t
  {
  }

  /** Reading the options with the autostart off arms it again; an access point once known stays known. */
  lemma OptionsSay(d: Dial, apnOk: bool, allowReset: bool, autostart: bool)
    ensures var e := Configure(d, apnOk, allowReset, autostart);
            && e.r == d.r && e.t == d.t && e.w.wanted == d.w.wanted && e.w.allowReset == allowReset
            && e.w.autostart == autostart && (e.w.autostartDone <==> autostart && d.w.autostartDone)
            && (e.w.apnOk <==> apnOk || d.w.apnOk)
  {
  }

  /** A start without an access point is a mistake of configuration and starts nothing; one without a port or with
      another kind of link does nothing; and one on its way changes nothing. */
  lemma StartRefused(d: Dial, env: Env)
    requires !Launched(d, env)
    ensures var e := StartDial(d, env);
            && e.r == d.r && e.t == d.t && e.w.wanted == d.w.wanted
            && (e.w.configError <==> d.w.configError || ((!d.w.wanted || d.t.stopped) && !d.w.apnOk))
  {
  }

  /** The kind of link is what the daemon knows at the last enabled tick. */
  lemma KindFollows(cfg: Config, d: Dial, env: Env, fate: Fate)
    requires env.enabled && d.w.wanted
    ensures var o := Tick(cfg, d, env, fate);
            o.d.w.kindKnown == env.kindKnown && o.d.w.kindEcm == (env.kindKnown && env.kindEcm)
  {
    var s := SyncKind(d, env);
    if GateOpen(s, env) { TurnKeepsKind(cfg, s, env, fate); }
  }

  lemma TurnKeepsKind(cfg: Config, d: Dial, env: Env, fate: Fate)
    ensures var w := Turn(cfg, d, env, fate).d.w; w.kindKnown == d.w.kindKnown && w.kindEcm == d.w.kindEcm
  {
    if Due(d, env) == None {
      StuckKeepsKind(cfg, d, env, fate);
    } else if fate.Answered? {
      ReplyKeepsWish(cfg, Busying(d), env, Due(d, env).value, fate.reply);
    }
  }

  lemma StuckKeepsKind(cfg: Config, d: Dial, env: Env, fate: Fate)
    ensures var w := Stuck(cfg, d, env, fate).d.w; w.kindKnown == d.w.kindKnown && w.kindEcm == d.w.kindEcm
  {
    match d.r.step
    case Reg => FailKeepsWish(cfg, Rewound(d), env);
    case Activate =>
      FailKeepsWish(cfg, Rewound(d), env);
      FailKeepsWish(cfg, d, env);
    case _ =>
  }

  lemma FailKeepsWish(cfg: Config, d: Dial, env: Env)
    ensures Fail(cfg, d, env).d.w == d.w
  {
  }

  // ---------------------------------------------------------------- a command that does not go through

  /** A command that the queue refuses costs nothing but two seconds. */
  lemma RefusedRetries(cfg: Config, d: Dial, env: Env)
    requires Acts(d, env) && OnRung(d) && env.apnBuilds && env.activateBuilds
    ensures var o := Tick(cfg, d, env, Rejected);
            o.cmds == [] && o.resets == [] && o.d.r == d.r && o.d.t == d.t.(nextTry := env.later + 2000)
  {
    ActingTick(cfg, d, env, Rejected);
    DueIsOrder(SyncKind(d, env), env);
  }

  /** A command that is never called back holds the dialer: no further tick sends anything. */
  lemma LostHolds(cfg: Config, h: Host, env: Env, more: seq<Event>)
    requires Acts(h.d, env) && OnRung(h.d) && env.apnBuilds && env.activateBuilds
    requires forall e | e in more :: e.Ticked?
    ensures var t := Run(cfg, h, [Ticked(env, Lost)] + more);
            t.cmds == [Order(h.d)] && t.resets == [] && t.h.d.r.running
  {
    ActingTick(cfg, h.d, env, Lost);
    DueIsOrder(SyncKind(h.d, env), env);
    assert ([Ticked(env, Lost)] + more)[1..] == more;
    Held(cfg, After(cfg, h, Ticked(env, Lost)), more);
  }

  lemma {:induction false} Held(cfg: Config, h: Host, events: seq<Event>)
    requires h.d.w.wanted && h.d.r.running && forall e | e in events :: e.Ticked?
    ensures var t := Run(cfg, h, events); t.cmds == [] && t.resets == [] && t.h.d.r.running
    decreases |events|
  {
    if events != [] {
      assert events[0] in events;
      QuietTick(cfg, h.d, events[0].env, events[0].fate);
      Held(cfg, After(cfg, h, events[0]), events[1..]);
    }
  }

  /** An access point that makes no command stops the dialer as misconfigured; an activation that makes none fails
      its rung; and the deactivation owed before it is dropped if it cannot be built. */
  lemma UnbuildableSays(cfg: Config, d: Dial, env: Env, fate: Fate)
    requires Acts(d, env)
    ensures var o := Tick(cfg, d, env, fate);
            && (d.r.step == Apn && !env.apnBuilds ==>
                  o.cmds == [] && o.resets == [] && o.d.t.stopped && o.d.w.configError && o.d.r.step == Failed)
            && (d.r.step == Activate && d.r.verb >= 0 && !env.activateBuilds && !d.r.wasUp ==>
                  FallsBack(cfg, d, env, [], o))
            && (d.r.step == Activate && d.r.verb >= 0 && !env.activateBuilds && d.r.wasUp ==>
                  o.cmds == [] && o.resets == [] && o.d.r == d.r.(wasUp := false) && o.d.t == d.t)
  {
    ActingTick(cfg, d, env, fate);
    var s := SyncKind(d, env);
    FailFallsBack(cfg, s, s, env, []);
    assert [] + Fail(cfg, s, env).cmds == Fail(cfg, s, env).cmds;
  }

  // ---------------------------------------------------------------- the total

  /** The dialer shows `n` resets, and so does what is stored. */
  predicate Totalled(h: Host, n: nat) {
    h.d.t.total == n && h.ledger.total == if n == 0 then None else Some(n)
  }

  /** Behind `made` resets, the run `t` shows them and its own. */
  predicate Shows(t: Trip, made: nat) { Totalled(t.h, made + |t.resets|) }

  lemma EventTotals(cfg: Config, h: Host, e: Event, made: nat)
    requires Totalled(h, made)
    ensures Totalled(After(cfg, h, e), made + |Apply(cfg, h, e).resets|)
  {
    EventCounts(cfg, h, e);
    var o := Apply(cfg, h, e);
    NoteTotals(cfg, h.ledger, o.resets, o.d.t.total);
  }

  lemma NoteTotals(cfg: Config, ledger: Ledger, resets: seq<int>, total: int)
    ensures Note(cfg, ledger, resets, total).total == if resets == [] then ledger.total else Some(total)
  {
  }

  lemma TotalNone(cfg: Config, h: Host, made: nat)
    requires Totalled(h, made)
    ensures Shows(Run(cfg, h, []), made)
  {
    assert Run(cfg, h, []) == Trip(h, [], []);
  }

  lemma TotalStep(cfg: Config, h: Host, e: Event, more: seq<Event>, made: nat) returns (next: Host, now: nat)
    requires Totalled(h, made)
    ensures Totalled(next, now)
    ensures Shows(Run(cfg, next, more), now) ==> Shows(Run(cfg, h, [e] + more), made)
  {
    EventTotals(cfg, h, e, made);
    next, now := After(cfg, h, e), made + |Apply(cfg, h, e).resets|;
    assert ([e] + more)[1..] == more;
  }

  /** The total that is shown: the resets ever made, over any number of daemon restarts. */
  lemma {:induction false} TotalCounts(cfg: Config, h: Host, events: seq<Event>, made: nat)
    requires Totalled(h, made)
    ensures Shows(Run(cfg, h, events), made)
    decreases |events|
  {
    if events == [] {
      TotalNone(cfg, h, made);
    } else {
      var next, now := TotalStep(cfg, h, events[0], events[1..], made);
      TotalCounts(cfg, next, events[1..], now);
      assert [events[0]] + events[1..] == events;
    }
  }

  /** One event adds to the total what it resets. */
  predicate Adds(d: Dial, o: Out) { |o.resets| <= 1 && o.d.t.total == d.t.total + |o.resets| }

  lemma EventCounts(cfg: Config, h: Host, e: Event)
    requires h.d.t.total == if h.ledger.total == None then 0 else h.ledger.total.value
    ensures Adds(h.d, Apply(cfg, h, e))
  {
    match e
    case Ticked(env, fate) =>
      var s := SyncKind(h.d, env);
      var t := if AutostartDue(s) then StartDial(Autostarted(s), env) else s;
      assert t.t.total == h.d.t.total;
      TurnCounts(cfg, t, env, fate);
    case Stopped(env, fate) =>
      if h.d.w.wanted || h.d.r.step != Down { StopCountsNone(h.d, env, fate); }
    case _ =>
  }

  lemma StopCountsNone(d: Dial, env: Env, fate: Fate)
    ensures Adds(d, StopDial(d, env, fate))
  {
    if !(!d.w.wanted && d.r.step == Down) && d.r.verb >= 0 && env.activateBuilds {
      match fate
      case Rejected => assert StopDial(d, env, fate).d.t.total == d.t.total;
      case Lost => assert StopDial(d, env, fate).d.t.total == d.t.total;
      case Answered(_) => assert StopDial(d, env, fate).d.t.total == d.t.total;
    }
  }

  lemma FailCountsOne(cfg: Config, d: Dial, env: Env)
    ensures Adds(d, Fail(cfg, d, env))
  {
    if d.t.attempt < |cfg.ladder| {
    } else if ResetAllowed(cfg, Fallen(d)) {
    } else {
    }
  }

  lemma ReplyCountsOne(cfg: Config, d: Dial, env: Env, cmd: Command, r: Reply)
    ensures Adds(d, OnReply(cfg, d, env, cmd, r))
  {
    FailCountsOne(cfg, Answer(d), env);
    FailCountsOne(cfg, NextDomain(Answer(d)), env);
    FailCountsOne(cfg, Polled(Answer(d)), env);
  }

  lemma TurnCounts(cfg: Config, d: Dial, env: Env, fate: Fate)
    ensures Adds(d, Turn(cfg, d, env, fate))
  {
    if Due(d, env) == None {
      FailCountsOne(cfg, Rewound(d), env);
      FailCountsOne(cfg, d, env);
    } else if fate.Answered? {
      ReplyCountsOne(cfg, Busying(d), env, Due(d, env).value, fate.reply);
    }
  }
}

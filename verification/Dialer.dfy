/** The dialer of fm160d/src/dialer.c as it runs: one state updated in place by the tick and the callbacks. */
module DialerCode {
  import opened DialerModel
  import Csv
  import LedgerText
  import opened Options

  class Dialer {
    const cfg: Config
    var rung: Rung
    var tries: Tries
    var wish: Wish
    var stamps: Option<string>       // "reset_stamps" in the configuration store
    var storedTotal: Option<int>     // "reset_total" in the configuration store
    ghost var sent: seq<Command>     // every command the queue accepted
    ghost var resets: seq<int>       // the wall-clock time of every module reset

    ghost function View(): Dial
      reads this
    {
      Dial(rung, tries, wish)
    }

    ghost function Store(): Ledger
      reads this
    {
      Ledger(if stamps.Some? then Some(LedgerText.Fields(stamps.value)) else None, storedTotal)
    }

    /** The state is what `o` says, counting from the state, the ledger and the logs before. */
    ghost predicate Became(o: Out, ledger: Ledger, sent0: seq<Command>, resets0: seq<int>)
      reads this
    {
      && View() == o.d
      && Store() == Note(cfg, ledger, o.resets, o.d.t.total)
      && sent == sent0 + o.cmds && resets == resets0 + o.resets
    }

    constructor (cfg: Config, stamps: Option<string>, storedTotal: Option<int>, wall: int)
      ensures this.cfg == cfg && this.stamps == stamps && this.storedTotal == storedTotal
      ensures View() == Boot(cfg, Store(), wall) && sent == [] && resets == []
    {
      this.cfg, this.stamps, this.storedTotal := cfg, stamps, storedTotal;
      rung, tries, wish := BLANK.r, BLANK.t, BLANK.w;
      sent, resets := [], [];
      new;
      LedgerLoad(wall);
    }

    method LedgerLoad(wall: int)
      modifies this`tries
      ensures View() == Load(cfg, old(View()), Store(), wall)
    {
      var count := 0;
      if stamps.Some? { count := LedgerText.CountStamps(cfg, wall, stamps.value); }
      tries := tries.(total := if storedTotal.Some? then storedTotal.value else 0, inWindow := count);
    }

    method LedgerNoteReset(wall: int)
      requires 0 < wall <= LedgerText.LLONG_MAX
      modifies this`tries, this`stamps, this`storedTotal
      ensures rung == old(rung) && wish == old(wish)
      ensures tries == old(tries).(total := old(tries.total) + 1, inWindow := old(tries.inWindow) + 1)
      ensures Store() == Note(cfg, old(Store()), [wall], tries.total)
    {
      tries := tries.(total := tries.total + 1, inWindow := tries.inWindow + 1);
      var s := LedgerText.NewStamps(cfg, wall, if stamps.Some? then stamps.value else "");
      Written(cfg, wall, First(Stamps(Store()), LEDGER_MAX - 1), if stamps.Some? then stamps.value else "");
      stamps, storedTotal := Some(s), Some(tries.total);
    }

    method DialTo(step: Step)
      modifies this`rung
      ensures View() == To(old(View()), step)
    {
      rung := rung.(step := step, sub := 0);
    }

    method DialStopHealing()
      modifies this`rung, this`tries
      ensures View() == StopHealing(old(View()))
    {
      tries := tries.(stopped := true, nextTry := NEVER);
      DialTo(Failed);
    }

    method DialEscalate(env: Env)
      requires 0 < env.wall <= LedgerText.LLONG_MAX
      modifies this
      ensures wish == old(wish)
      ensures Became(Escalate(cfg, old(View()), env), old(Store()), old(sent), old(resets))
    {
      if !wish.allowReset || tries.inWindow >= cfg.limit {
        DialStopHealing();
        return;
      }
      LedgerNoteReset(env.wall);
      resets := resets + [env.wall];
      if env.resetAccepted { sent := sent + [ResetModule]; }
      tries := tries.(attempt := 0, nextTry := env.later + POST_RESET_MS);
      DialTo(Pin);
    }

    method DialFail(env: Env)
      requires 0 < env.wall <= LedgerText.LLONG_MAX
      modifies this
      ensures Became(Fail(cfg, old(View()), env), old(Store()), old(sent), old(resets))
    {
      var attempt := tries.attempt;
      rung := rung.(running := false, up := false, ipPolls := 0);
      if attempt >= |cfg.ladder| {
        DialEscalate(env);
        return;
      }
      tries := tries.(nextTry := env.later + cfg.ladder[attempt] * 1000, attempt := attempt + 1);
      DialTo(Pin);
    }

    method CbPin(env: Env, r: Reply)
      requires 0 < env.wall <= LedgerText.LLONG_MAX
      modifies this
      ensures Became(OnPin(cfg, old(View()), env, r), old(Store()), old(sent), old(resets))
    {
      rung := rung.(running := false);
      if r.status != Ok {
        DialFail(env);
        return;
      }
      if r.cpin == 1 {
        tries := tries.(nextTry := 0);
        DialTo(Reg);
        return;
      }
      DialFail(env);
    }

    method CbReg(env: Env, r: Reply)
      requires 0 < env.wall <= LedgerText.LLONG_MAX
      modifies this
      ensures Became(OnReg(cfg, old(View()), env, r), old(Store()), old(sent), old(resets))
    {
      rung := rung.(running := false);
      if r.status == Ok && (r.reg == 1 || r.reg == 5) {
        tries := tries.(nextTry := 0);
        DialTo(Apn);
        return;
      }
      NextReg(env);
    }

    method NextReg(env: Env)
      requires 0 < env.wall <= LedgerText.LLONG_MAX
      modifies this
      ensures Became(if old(rung.sub) + 1 < REG_SUBS then Quietly(At(NextDomain(old(View())), 0))
                     else Fail(cfg, NextDomain(old(View())), env), old(Store()), old(sent), old(resets))
    {
      rung := rung.(sub := rung.sub + 1);
      assert View() == NextDomain(old(View()));
      if rung.sub < REG_SUBS {
        tries := tries.(nextTry := 0);
        return;
      }
      DialFail(env);
    }

    method CbApn(env: Env, r: Reply)
      requires 0 < env.wall <= LedgerText.LLONG_MAX
      modifies this
      ensures Became(OnApn(cfg, old(View()), env, r), old(Store()), old(sent), old(resets))
    {
      rung := rung.(running := false);
      if r.status != Ok {
        DialFail(env);
        return;
      }
      tries := tries.(nextTry := 0);
      DialTo(Activate);
    }

    method CbVerbProbe(env: Env, r: Reply, tried: int)
      requires 0 < env.wall <= LedgerText.LLONG_MAX
      modifies this
      ensures Became(OnProbe(cfg, old(View()), env, r, tried), old(Store()), old(sent), old(resets))
    {
      rung := rung.(running := false);
      if r.status == Ok {
        rung := rung.(verb := tried, sub := 0);
        tries := tries.(nextTry := 0);
        return;
      }
      if tried == 0 {
        rung := rung.(sub := 1);
        tries := tries.(nextTry := 0);
        return;
      }
      DialFail(env);
    }

    method CbActivate(env: Env, r: Reply)
      requires 0 < env.wall <= LedgerText.LLONG_MAX
      modifies this
      ensures Became(OnActivate(cfg, old(View()), env, r), old(Store()), old(sent), old(resets))
    {
      rung := rung.(running := false);
      if r.status != Ok {
        tries := tries.(nextTry := 0);
        DialTo(Ip);
        return;
      }
      if r.wwan.Some? && r.wwan.value.valid && r.wwan.value.active == 0 {
        DialFail(env);
        return;
      }
      tries := tries.(nextTry := 0);
      DialTo(Ip);
    }

    method NotYet(env: Env)
      requires 0 < env.wall <= LedgerText.LLONG_MAX
      modifies this
      ensures Became(if old(rung.ipPolls) + 1 < IP_MAX_POLLS
                       then Quietly(At(Polled(old(View())), env.later + IP_GAP_MS))
                     else Fail(cfg, Polled(old(View())), env), old(Store()), old(sent), old(resets))
    {
      rung := rung.(ipPolls := rung.ipPolls + 1);
      if rung.ipPolls < IP_MAX_POLLS {
        tries := tries.(nextTry := env.later + IP_GAP_MS);
        return;
      }
      DialFail(env);
    }

    method CbIp(env: Env, r: Reply)
      requires 0 < env.wall <= LedgerText.LLONG_MAX
      modifies this
      ensures Became(OnIp(cfg, old(View()), env, r), old(Store()), old(sent), old(resets))
    {
      rung := rung.(running := false);
      if r.status != Ok || r.wwan.None? || !r.wwan.value.valid {
        NotYet(env);
        return;
      }
      if r.wwan.value.active == 0 {
        DialFail(env);
        return;
      }
      if !r.wwan.value.hasAddr {
        NotYet(env);
        return;
      }
      if !r.wwan.value.addrOk {
        DialFail(env);
        return;
      }
      rung := rung.(up := true, wasUp := true, ipPolls := 0, step := Up, sub := 0);
      tries := tries.(attempt := 0, nextTry := env.later + SUPERVISE_MS);
    }

    method Callback(env: Env, cmd: Command, r: Reply)
      requires 0 < env.wall <= LedgerText.LLONG_MAX
      modifies this
      ensures Became(OnReply(cfg, old(View()), env, cmd, r), old(Store()), old(sent), old(resets))
    {
      match cmd
      case QueryPin => CbPin(env, r);
      case QueryReg(_) => CbReg(env, r);
      case SetApn => CbApn(env, r);
      case Probe(v) => CbVerbProbe(env, r, v);
      case DoActivate => CbActivate(env, r);
      case ReadContext => CbIp(env, r);
      case _ =>
    }

    method DialSubmit(env: Env, cmd: Command, fate: Fate)
      requires 0 < env.wall <= LedgerText.LLONG_MAX
      modifies this
      ensures Became(Submit(cfg, old(View()), env, cmd, fate), old(Store()), old(sent), old(resets))
    {
      rung := rung.(running := true);
      match fate
      case Rejected =>
        rung := rung.(running := false);
        tries := tries.(nextTry := env.later + RESUBMIT_MS);
      case Lost =>
        sent := sent + [cmd];
      case Answered(r) =>
        sent := sent + [cmd];
        Callback(env, cmd, r);
        After(OnReply(cfg, Busying(old(View())), env, cmd, r), cmd, old(Store()), old(sent), old(resets));
    }

    /** A callback comes after the command it answers. */
    lemma After(o: Out, cmd: Command, ledger: Ledger, sent0: seq<Command>, resets0: seq<int>)
      requires Became(o, ledger, sent0 + [cmd], resets0)
      ensures Became(Out(o.d, [cmd] + o.cmds, o.resets), ledger, sent0, resets0)
    {
      assert sent0 + [cmd] + o.cmds == sent0 + ([cmd] + o.cmds);
    }

    /** The rung of the present tick. */
    method Rung(env: Env, fate: Fate)
      requires 0 < env.wall <= LedgerText.LLONG_MAX
      modifies this
      ensures Became(Turn(cfg, old(View()), env, fate), old(Store()), old(sent), old(resets))
    {
      match rung.step
      case Pin => DialSubmit(env, QueryPin, fate);
      case Reg =>
        if rung.sub >= REG_SUBS {
          rung := rung.(sub := 0);
          DialFail(env);
          return;
        }
        DialSubmit(env, QueryReg(rung.sub), fate);
      case Apn =>
        if !env.apnBuilds {
          wish := wish.(configError := true);
          DialStopHealing();
          return;
        }
        DialSubmit(env, SetApn, fate);
      case Activate => RungActivate(env, fate);
      case Ip => DialSubmit(env, ReadContext, fate);
      case Up => DialSubmit(env, ReadContext, fate);
      case _ =>
    }

    method RungActivate(env: Env, fate: Fate)
      requires 0 < env.wall <= LedgerText.LLONG_MAX && rung.step == Activate
      modifies this
      ensures Became(Turn(cfg, old(View()), env, fate), old(Store()), old(sent), old(resets))
    {
      if rung.verb < 0 {
        if rung.sub >= PROBE_SUBS {
          rung := rung.(sub := 0);
          DialFail(env);
          return;
        }
        DialSubmit(env, Probe(rung.sub), fate);
        return;
      }
      if rung.wasUp {
        rung := rung.(wasUp := false);
        if !env.activateBuilds { return; }
        if !fate.Rejected? { sent := sent + [Deactivate]; }
        tries := tries.(nextTry := env.now + REACTIVATE_MS);
        return;
      }
      if !env.activateBuilds {
        DialFail(env);
        return;
      }
      DialSubmit(env, DoActivate, fate);
    }

    method DoStart(env: Env)
      modifies this`rung, this`tries, this`wish
      ensures View() == StartDial(old(View()), env)
    {
      if wish.wanted && !tries.stopped { return; }
      if !wish.apnOk {
        wish := wish.(configError := true);
        return;
      }
      if !(wish.kindKnown && wish.kindEcm) { return; }
      if !env.portFound { return; }
      wish := wish.(configError := false, wanted := true);
      tries := tries.(stopped := false, attempt := 0, nextTry := 0);
      rung := rung.(ipPolls := 0, wasUp := false, up := false);
      DialTo(Pin);
    }

    method DropWish()
      modifies this`rung, this`tries, this`wish
      ensures Dial(rung.(step := Down), tries, wish) == Unwanted(old(View()))
      ensures rung.verb == old(rung.verb)
    {
      wish := wish.(wanted := false, configError := false);
      rung := rung.(up := false, ipPolls := 0, sub := 0);
      tries := tries.(nextTry := 0);
    }

    method DoStop(env: Env, fate: Fate)
      modifies this
      ensures Became(StopDial(old(View()), env, fate), old(Store()), old(sent), old(resets))
    {
      if !wish.wanted && rung.step == Down { return; }
      DropWish();
      if rung.verb < 0 || !env.activateBuilds {
        rung := rung.(step := Down);
        return;
      }
      SubmitDown(env, fate);
      rung := rung.(step := Down, sub := 0);
    }

    /** Submit the disconnect, whose callback records the link as down whatever the modem says. */
    method SubmitDown(env: Env, fate: Fate)
      modifies this`rung, this`tries, this`sent
      ensures sent == if fate.Rejected? then old(sent) else old(sent) + [Deactivate]
      ensures tries == if fate.Rejected? then old(tries).(nextTry := env.later + RESUBMIT_MS) else old(tries)
      ensures rung == if fate.Answered?
                        then old(rung).(running := false, step := Down, sub := 0, up := false, wasUp := false)
                      else old(rung).(running := fate.Lost?)
    {
      rung := rung.(running := true);
      match fate
      case Rejected =>
        rung := rung.(running := false);
        tries := tries.(nextTry := env.later + RESUBMIT_MS);
      case Lost =>
        sent := sent + [Deactivate];
      case Answered(_) =>
        sent := sent + [Deactivate];
        rung := rung.(running := false, step := Down, sub := 0, up := false, wasUp := false);
    }

    /** The part of the tick that runs whether or not the link is wanted. */
    method Prepare(env: Env)
      modifies this`rung, this`tries, this`wish
      ensures var s := SyncKind(old(View()), env);
              View() == if AutostartDue(s) then StartDial(Autostarted(s), env) else s
    {
      wish := wish.(kindKnown := env.kindKnown, kindEcm := env.kindKnown && env.kindEcm);
      if wish.autostart && !wish.autostartDone && wish.kindKnown && !wish.wanted && !wish.configError {
        wish := wish.(autostartDone := true);
        DoStart(env);
      }
    }

    method DoTick(env: Env, fate: Fate)
      requires 0 < env.wall <= LedgerText.LLONG_MAX
      modifies this
      ensures Became(Tick(cfg, old(View()), env, fate), old(Store()), old(sent), old(resets))
    {
      if !env.enabled { return; }
      Prepare(env);
      if !wish.wanted || tries.stopped { return; }
      if !env.portFound || env.atState >= 2 { return; }
      if rung.running { return; }
      if env.now < tries.nextTry { return; }
      if env.depth >= 3 { return; }
      Rung(env, fate);
    }
  }

  /** What NewStamps wrote reads back as the stamps the model keeps. */
  lemma Written(cfg: Config, wall: int, s: seq<int>, stored: string)
    requires 0 < wall <= LedgerText.LLONG_MAX && s == First(LedgerText.Fields(stored), LEDGER_MAX - 1)
    ensures LedgerText.Fields(Csv.Join([wall] + Kept(cfg, wall, s))) == [wall] + Kept(cfg, wall, s)
  {
    FieldsInRange(stored);
    KeptStorable(cfg, wall, s);
    LedgerText.FieldsOfJoin([wall] + Kept(cfg, wall, s));
  }

  lemma {:induction false} FieldsInRange(v: string)
    ensures forall i | 0 <= i < |LedgerText.Fields(v)| :: LedgerText.Fields(v)[i] <= LedgerText.LLONG_MAX
    decreases |v|
  {
    if v != "" && Csv.CommaAt(v) < |v| { FieldsInRange(v[Csv.CommaAt(v) + 1..]); }
  }

  lemma {:induction false} KeptStorable(cfg: Config, wall: int, s: seq<int>)
    requires forall i | 0 <= i < |s| :: s[i] <= LedgerText.LLONG_MAX
    ensures LedgerText.Storable(Kept(cfg, wall, s))
  {
    if s != [] && s[0] > 0 && wall - s[0] < cfg.window { KeptStorable(cfg, wall, s[1..]); }
  }
}

/** The monitor and its session as objects; every method is tied to its transition in QuotaSpec. */
module QuotaMonitoring {
  import opened Basics
  import opened QuotaSpec
  import QuotaLaws

  /** The fields of a session that the monitor shares, and its router. */
  class MonitoredSession {
    var status: Status
    var pausedVia: StopReason
    var resumeAt: Option<int>
    var outputTokens: int
    var failedTool: string
    var router: Router

    constructor ()
      ensures Fields() == Session(Pending, NoStop, None, 0, "") && router == Between
    {
      status, pausedVia, resumeAt, outputTokens, failedTool, router := Pending, NoStop, None, 0, "", Between;
    }

    function Fields(): Session
      reads this
    {
      Session(status, pausedVia, resumeAt, outputTokens, failedTool)
    }
  }

  class QuotaMonitor {
    const cfg: Config
    const session: MonitoredSession

    // channels
    var turnEnded: bool
    var permDenied: Option<string>
    var stopClosed: bool

    var lastU5: int
    var lastR5: int
    var stopReason: StopReason
    var outputTokensAtSoftMark: int
    var outputTokensSinceSoftMark: int
    var terminalEventPublished: bool
    var phase: Phase

    ghost var history: History

    constructor (cfg: Config, session: MonitoredSession)
      requires session.Fields() == Session(Pending, NoStop, None, 0, "") && session.router == Between
      ensures this.session == session && View() == Start(cfg)
    {
      this.cfg, this.session := cfg, session;
      turnEnded, permDenied, stopClosed, phase := false, None, false, Top;
      lastU5, lastR5, stopReason := 0, 0, NoStop;
      outputTokensAtSoftMark, outputTokensSinceSoftMark, terminalEventPublished := 0, 0, false;
      history := History([], NOTHING);
    }

    ghost function View(): World
      reads this, session
    {
      World(cfg,
            Monitor(stopReason, lastU5, lastR5, outputTokensAtSoftMark, outputTokensSinceSoftMark,
                terminalEventPublished),
            session.Fields(), Channels(turnEnded, permDenied, stopClosed), phase, session.router, history)
    }

    ghost method Record(o: Obs)
      modifies `history
      ensures history == Add(old(history), o)
    {
      history := Add(history, o);
    }

    method CheckHardBudget()
      requires Counting(stopReason)
      modifies `stopReason, `history
      ensures stopReason == Recount(cfg, old(View().m), outputTokensSinceSoftMark).reason
      ensures history == if stopReason != old(stopReason) then Add(old(history), InterruptTried) else old(history)
    {
      if stopReason == QuotaSoft && cfg.headroom > 0 && outputTokensSinceSoftMark >= cfg.headroom {
        stopReason := QuotaHard;
        Record(InterruptTried);
      }
    }

    method OnRawOutput(kind: LineKind, bytes: nat)
      modifies this
      ensures View() == QuotaSpec.OnRawOutput(old(View()), kind, bytes)
    {
      Record(Line(kind, bytes));
      match kind
      case Assistant =>
        if stopReason == QuotaSoft || stopReason == QuotaHard {
          outputTokensSinceSoftMark := outputTokensSinceSoftMark + bytes / 4;
          CheckHardBudget();
        }
      case Result(tokens) =>
        if stopReason == QuotaSoft || stopReason == QuotaHard {
          if tokens.Some? && tokens.value > 0 {
            outputTokensSinceSoftMark := tokens.value - outputTokensAtSoftMark;
            if outputTokensSinceSoftMark < 0 {
              outputTokensSinceSoftMark := 0;
            }
            CheckHardBudget();
          }
        }
        turnEnded := true;
      case OtherLine =>
    }

    method HandleTurnEnd()
      modifies this, session
      ensures View() == QuotaSpec.HandleTurnEnd(old(View()))
    {
      terminalEventPublished := true;
      match stopReason
      case NoStop =>
        Record(CompleteEvent);
        session.status := Completed;
        Record(KVWrite(session.Fields()));
      case PermDenied =>
      case _ =>
        Record(PausedEvent(stopReason, lastR5, outputTokensSinceSoftMark));
        session.status := Paused;
        session.pausedVia := stopReason;
        if cfg.autoContinue && lastR5 != 0 {
          session.resumeAt := Some(lastR5);
        }
        Record(KVWrite(session.Fields()));
        stopReason := NoStop;
        outputTokensSinceSoftMark := 0;
    }

    method HandleSubprocessExit()
      modifies this, session
      ensures View() == QuotaSpec.HandleSubprocessExit(old(View()))
    {
      if terminalEventPublished {
        return;
      }
      Record(FailedEvent);
      session.status := Failed;
      Record(KVWrite(session.Fields()));
    }

    method HandlePermDenied(tool: string)
      modifies this, session
      ensures View() == QuotaSpec.HandlePermDenied(old(View()), tool)
    {
      if stopReason == NoStop {
        stopReason := PermDenied;
        session.status := NeedsSpecFix;
        session.failedTool := tool;
        Record(KVWrite(session.Fields()));
      }
    }

    method InjectSoftStop()
      modifies `stopReason, `outputTokensAtSoftMark, `outputTokensSinceSoftMark, `history
      ensures stopReason == if cfg.headroom == 0 then QuotaHard else QuotaSoft
      ensures outputTokensAtSoftMark == session.outputTokens && outputTokensSinceSoftMark == 0
      ensures history == if stopReason == QuotaHard then Add(Add(old(history), SoftStopSent), InterruptTried)
                         else Add(old(history), SoftStopSent)
    {
      stopReason := QuotaSoft;
      outputTokensAtSoftMark := session.outputTokens;
      outputTokensSinceSoftMark := 0;
      Record(SoftStopSent);
      if cfg.headroom == 0 {
        stopReason := QuotaHard;
        Record(InterruptTried);
      }
    }

    method HandleQuota(msg: QuotaMsg, now: int)
      modifies this, session
      ensures View() == QuotaSpec.HandleQuota(old(View()), msg, now)
    {
      if !msg.QuotaMsg? {
        return;
      }
      lastU5, lastR5 := msg.u5, msg.r5;
      Record(Reading(msg.hasData, msg.u5));
      if !msg.hasData {
        return;
      }
      if msg.u5 >= cfg.softThreshold && stopReason == NoStop {
        InjectSoftStop();
        return;
      }
      if session.status == Pending && msg.u5 < cfg.softThreshold {
        Record(PromptSent);
        session.status := Running;
        Record(KVWrite(session.Fields()));
        return;
      }
      if session.status == Paused && msg.u5 < cfg.softThreshold {
        if cfg.autoContinue && session.resumeAt.Some? && now < session.resumeAt.value {
          return;
        }
        Record(NudgeSent(now));
        session.status, session.pausedVia, session.resumeAt := Running, NoStop, None;
        Record(KVWrite(session.Fields()));
      }
    }

    /** `handleSideEffect` with the callbacks of a quota-managed session. */
    method HandleSideEffect(e: SideEffect)
      modifies this, session
      ensures View() == QuotaSpec.HandleSideEffect(old(View()), e)
    {
      match e
      case NoEffect =>
      case SetStatus(st) => session.status := st;
      case AddUsage(n) => session.outputTokens := session.outputTokens + n;
      case Deny(tool) => SignalPermDenied(tool);
    }

    method SignalPermDenied(tool: string)
      modifies `permDenied
      ensures permDenied == if old(permDenied).None? then Some(tool) else old(permDenied)
    {
      if permDenied.None? {
        permDenied := Some(tool);
      }
    }

    method TakeTurnEnd()
      requires turnEnded
      modifies this, session
      ensures View() == QuotaSpec.TakeTurnEnd(old(View()))
    {
      turnEnded := false;
      HandleTurnEnd();
    }

    method LeaveThroughDone()
      modifies this, session
      ensures View() == QuotaSpec.LeaveThroughDone(old(View()))
    {
      if turnEnded {
        TakeTurnEnd();
      }
      HandleSubprocessExit();
      phase := Left(true, stopClosed);
      stopClosed := true;
    }

    /** One turn of `run`, of the router, or a call of `stop`, as the scheduler picks it. */
    method Perform(step: Step)
      modifies this, session
      ensures View() == Next(old(View()), step)
    {
      match step
      case Route(kind, bytes, e) =>
        if session.router.Between? { OnRawOutput(kind, bytes); session.router := Owing(e); }
      case RouteEffect =>
        if session.router.Owing? { HandleSideEffect(session.router.effect); session.router := Between; }
      case RouterExit => if session.router.Between? { session.router := Gone; }
      case Stop => stopClosed := true;
      case Drain =>
        if phase.Top? {
          if turnEnded { TakeTurnEnd(); } else { phase := Selecting; }
        }
      case SelectStop => if phase.Selecting? && stopClosed { phase := Left(false, false); }
      case SelectPerm =>
        if phase.Selecting? && permDenied.Some? {
          var tool := permDenied.value;
          permDenied, phase := None, Top;
          HandlePermDenied(tool);
        }
      case SelectQuota(msg, now) => if phase.Selecting? { phase := Top; HandleQuota(msg, now); }
      case SelectTurnEnd => if phase.Selecting? && turnEnded { phase := Top; TakeTurnEnd(); }
      case SelectDone => if phase.Selecting? && session.router.Gone? { LeaveThroughDone(); }
    }

    /** The event loop under any schedule reaches exactly the state the laws above speak of. */
    method Run(schedule: seq<Step>)
      requires View() == Start(cfg)
      modifies this, session
      ensures View() == Exec(cfg, schedule)
    {
      for i := 0 to |schedule|
        invariant View() == Exec(cfg, schedule[..i])
      {
        assert schedule[..i + 1] == schedule[..i] + [schedule[i]];
        QuotaLaws.ExecAppend(cfg, schedule[..i], schedule[i]);
        Perform(schedule[i]);
      }
      assert schedule[..|schedule|] == schedule;
    }
  }
}

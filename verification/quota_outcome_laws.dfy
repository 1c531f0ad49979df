/**
 What each event does to a session in any run, and the token count as a reading of the history. Every
 law states all that a step publishes and all fields it leaves.
 */
module QuotaOutcomeLaws {
  import opened Basics
  import opened QuotaSpec
  import opened QuotaLaws

  /** The step after the run. */
  function Then(cfg: Config, steps: seq<Step>, step: Step): World { Exec(cfg, steps + [step]) }

  /** The step changed nothing but these parts, and published exactly these observations. */
  ghost predicate Did(w: World, w': World, m: Monitor, s: Session, ch: Channels, phase: Phase, router: Router,
      out: seq<Obs>) {
    && w'.cfg == w.cfg && w'.m == m && w'.s == s && w'.ch == ch && w'.phase == phase && w'.router == router
    && w'.h.log == w.h.log + out
  }

  function RunningSession(s: Session): Session { s.(status := Running) }

  /** A resumed session keeps neither the tier of its pause nor a resume time. */
  function ResumedSession(s: Session): Session { s.(status := Running, pausedVia := NoStop, resumeAt := None) }

  /** The resume time, if the session waits for one, has come. */
  predicate MayResume(cfg: Config, s: Session, now: int) {
    !cfg.autoContinue || s.resumeAt.None? || s.resumeAt.value <= now
  }

  /** A quota-managed session starts pending, with nothing read, sent or queued. */
  lemma StartsPending(cfg: Config)
    ensures var w := Exec(cfg, []);
            && w.cfg == cfg && w.m == Monitor(NoStop, 0, 0, 0, 0, false) && w.s == Session(Pending, NoStop, None, 0, "")
            && !w.ch.turn && w.ch.perm.None? && !w.ch.stopClosed && w.phase.Top? && w.router.Between? && w.h.log == []
  {}

  /** The channel, the goroutine and the router allow the step. */
  predicate Ready(w: World, step: Step) {
    match step
    case Route(_, _, _) => w.router.Between?
    case RouteEffect => w.router.Owing?
    case RouterExit => w.router.Between?
    case Stop => true
    case Drain => w.phase.Top?
    case SelectStop => w.phase.Selecting? && w.ch.stopClosed
    case SelectPerm => w.phase.Selecting? && w.ch.perm.Some?
    case SelectQuota(_, _) => w.phase.Selecting?
    case SelectTurnEnd => w.phase.Selecting? && w.ch.turn
    case SelectDone => w.phase.Selecting? && w.router.Gone?
  }

  /** Until then it does not happen. */
  lemma NotReadyChangesNothing(cfg: Config, steps: seq<Step>, step: Step)
    requires !Ready(Exec(cfg, steps), step)
    ensures Then(cfg, steps, step) == Exec(cfg, steps)
  {
    ExecAppend(cfg, steps, step);
  }

  /** The router closes `doneCh` between two lines. */
  lemma RouterExitOutcome(cfg: Config, steps: seq<Step>)
    requires Exec(cfg, steps).router.Between?
    ensures var w := Exec(cfg, steps); Did(w, Then(cfg, steps, RouterExit), w.m, w.s, w.ch, w.phase, Gone, [])
  {
    ExecAppend(cfg, steps, RouterExit);
  }

  // ---------------------------------------------------------------- readings

  /** A paused session is nudged at a low reading exactly when its resume time, if it waits for one, has come. */
  lemma PausedAtALowReading(cfg: Config, steps: seq<Step>, u5: int, r5: int, now: int)
    requires Exec(cfg, steps).phase.Selecting? && Exec(cfg, steps).s.status.Paused? && u5 < cfg.softThreshold
    ensures var w := Exec(cfg, steps);
            var may := MayResume(cfg, w.s, now);
            var s := if may then ResumedSession(w.s) else w.s;
            var w' := Then(cfg, steps, SelectQuota(QuotaMsg(true, u5, r5), now));
            Did(w, w', w.m.(u5 := u5, r5 := r5), s, w.ch, Top, w.router,
                if may then [Reading(true, u5), NudgeSent(now), KVWrite(s)] else [Reading(true, u5)])
  {
    ConfigIsFixed(cfg, steps);
    ExecAppend(cfg, steps, SelectQuota(QuotaMsg(true, u5, r5), now));
  }

  /** A pending session is prompted and runs at any low reading. */
  lemma PendingAtALowReading(cfg: Config, steps: seq<Step>, u5: int, r5: int, now: int)
    requires Exec(cfg, steps).phase.Selecting? && Exec(cfg, steps).s.status.Pending? && u5 < cfg.softThreshold
    ensures var w := Exec(cfg, steps);
            var s := RunningSession(w.s);
            var w' := Then(cfg, steps, SelectQuota(QuotaMsg(true, u5, r5), now));
            Did(w, w', w.m.(u5 := u5, r5 := r5), s, w.ch, Top, w.router,
                [Reading(true, u5), PromptSent, KVWrite(s)])
  {
    ConfigIsFixed(cfg, steps);
    ExecAppend(cfg, steps, SelectQuota(QuotaMsg(true, u5, r5), now));
  }

  /** A reading at or over the threshold soft-stops an unstopped session, marking its tokens; without headroom, hard. */
  lemma HighReading(cfg: Config, steps: seq<Step>, u5: int, r5: int, now: int)
    requires Exec(cfg, steps).phase.Selecting? && Exec(cfg, steps).m.reason.NoStop? && u5 >= cfg.softThreshold
    ensures var w := Exec(cfg, steps);
            var tier := if cfg.headroom == 0 then QuotaHard else QuotaSoft;
            var m := Monitor(tier, u5, r5, w.s.outputTokens, 0, w.m.terminal);
            Did(w, Then(cfg, steps, SelectQuota(QuotaMsg(true, u5, r5), now)), m, w.s, w.ch, Top, w.router,
                [Reading(true, u5), SoftStopSent] + if cfg.headroom == 0 then [InterruptTried] else [])
  {
    ConfigIsFixed(cfg, steps);
    ExecAppend(cfg, steps, SelectQuota(QuotaMsg(true, u5, r5), now));
  }

  /** A reading without data, a high one during a stop, and a low one in any other status are only noted. */
  lemma NotedReading(cfg: Config, steps: seq<Step>, hasData: bool, u5: int, r5: int, now: int)
    requires Exec(cfg, steps).phase.Selecting?
    requires var w := Exec(cfg, steps);
             || !hasData
             || (u5 >= cfg.softThreshold && !w.m.reason.NoStop?)
             || (u5 < cfg.softThreshold && !w.s.status.Pending? && !w.s.status.Paused?)
    ensures var w := Exec(cfg, steps);
            var w' := Then(cfg, steps, SelectQuota(QuotaMsg(hasData, u5, r5), now));
            Did(w, w', w.m.(u5 := u5, r5 := r5), w.s, w.ch, Top, w.router, [Reading(hasData, u5)])
  {
    ConfigIsFixed(cfg, steps);
    ExecAppend(cfg, steps, SelectQuota(QuotaMsg(hasData, u5, r5), now));
  }

  lemma UnreadableMessage(cfg: Config, steps: seq<Step>, msg: QuotaMsg, now: int)
    requires Exec(cfg, steps).phase.Selecting? && !msg.QuotaMsg?
    ensures var w := Exec(cfg, steps);
            Did(w, Then(cfg, steps, SelectQuota(msg, now)), w.m, w.s, w.ch, Top, w.router, [])
  {
    ExecAppend(cfg, steps, SelectQuota(msg, now));
  }

  // ---------------------------------------------------------------- turn ends, denials, exit

  /** What a turn end makes of a session, by the stop that was pending. */
  function Ended(cfg: Config, m: Monitor, s: Session): Session {
    match m.reason
    case NoStop => s.(status := Completed)
    case PermDenied => s
    case tier =>
      var resumeAt := if cfg.autoContinue && m.r5 != 0 then Some(m.r5) else s.resumeAt;
      Session(Paused, tier, resumeAt, s.outputTokens, s.failedTool)
  }

  function EndPublished(m: Monitor, s: Session): seq<Obs> {
    match m.reason
    case NoStop => [CompleteEvent, KVWrite(s)]
    case PermDenied => []
    case tier => [PausedEvent(tier, m.r5, m.sinceMark), KVWrite(s)]
  }

  /** A pause ends its stop and its count; a completion or a denial leaves the reason. */
  function EndMonitor(m: Monitor): Monitor {
    if m.reason.QuotaSoft? || m.reason.QuotaHard? then Monitor(NoStop, m.u5, m.r5, m.atMark, 0, true)
    else Monitor(m.reason, m.u5, m.r5, m.atMark, m.sinceMark, true)
  }

  /** A queued turn end is taken at the drain or at the select, with the same outcome. */
  lemma TurnEndOutcome(cfg: Config, steps: seq<Step>, step: Step)
    requires Exec(cfg, steps).ch.turn
    requires (step.Drain? && Exec(cfg, steps).phase.Top?) || (step.SelectTurnEnd? && Exec(cfg, steps).phase.Selecting?)
    ensures var w := Exec(cfg, steps);
            var s := Ended(cfg, w.m, w.s);
            var ch := w.ch.(turn := false);
            Did(w, Then(cfg, steps, step), EndMonitor(w.m), s, ch, Top, w.router, EndPublished(w.m, s))
  {
    ConfigIsFixed(cfg, steps);
    ExecAppend(cfg, steps, step);
  }

  /** A denied tool stops an unstopped session and names the tool; during another stop it changes nothing. */
  lemma DenialOutcome(cfg: Config, steps: seq<Step>)
    requires Exec(cfg, steps).phase.Selecting? && Exec(cfg, steps).ch.perm.Some?
    ensures var w := Exec(cfg, steps);
            var stops := w.m.reason.NoStop?;
            var s := if stops then w.s.(status := NeedsSpecFix, failedTool := w.ch.perm.value) else w.s;
            Did(w, Then(cfg, steps, SelectPerm), if stops then w.m.(reason := PermDenied) else w.m, s,
                w.ch.(perm := None), Top, w.router, if stops then [KVWrite(s)] else [])
  {
    ExecAppend(cfg, steps, SelectPerm);
  }

  /** An exit first takes a queued turn end, and reports a failure only when no turn ever ended. */
  lemma ExitOutcome(cfg: Config, steps: seq<Step>)
    requires Exec(cfg, steps).phase.Selecting? && Exec(cfg, steps).router.Gone?
    ensures var w := Exec(cfg, steps);
            var s := if w.ch.turn then Ended(cfg, w.m, w.s)
                     else if w.m.terminal then w.s else w.s.(status := Failed);
            Did(w, Then(cfg, steps, SelectDone), if w.ch.turn then EndMonitor(w.m) else w.m, s,
                Channels(false, w.ch.perm, true), Left(true, w.ch.stopClosed), Gone,
                if w.ch.turn then EndPublished(w.m, s)
                else if w.m.terminal then [] else [FailedEvent, KVWrite(s)])
  {
    ConfigIsFixed(cfg, steps);
    ExecAppend(cfg, steps, SelectDone);
  }

  /** Closing the stop channel lets the monitor leave, and only that. */
  lemma StopOutcome(cfg: Config, steps: seq<Step>)
    ensures var w := Exec(cfg, steps);
            && Did(w, Then(cfg, steps, Stop), w.m, w.s, w.ch.(stopClosed := true), w.phase, w.router, [])
            && Did(w, Then(cfg, steps, SelectStop), w.m, w.s, w.ch,
                   if w.phase.Selecting? && w.ch.stopClosed then Left(false, false) else w.phase, w.router, [])
  {
    ExecAppend(cfg, steps, Stop);
    ExecAppend(cfg, steps, SelectStop);
  }

  /** With nothing queued, the drain goes on to the select. */
  lemma DrainOutcome(cfg: Config, steps: seq<Step>)
    requires Exec(cfg, steps).phase.Top? && !Exec(cfg, steps).ch.turn
    ensures var w := Exec(cfg, steps); Did(w, Then(cfg, steps, Drain), w.m, w.s, w.ch, Selecting, w.router, [])
  {
    ExecAppend(cfg, steps, Drain);
  }

  // ---------------------------------------------------------------- the router

  /** The second call of a line sets the status, adds the usage, or signals the first denied tool. */
  lemma EffectOutcome(cfg: Config, steps: seq<Step>, e: SideEffect)
    requires Exec(cfg, steps).router == Owing(e)
    ensures var w := Exec(cfg, steps);
            Did(w, Then(cfg, steps, RouteEffect), w.m,
                Session(if e.SetStatus? then e.status else w.s.status, w.s.pausedVia, w.s.resumeAt,
                        w.s.outputTokens + (if e.AddUsage? then e.outputTokens else 0), w.s.failedTool),
                w.ch.(perm := if e.Deny? && w.ch.perm.None? then Some(e.tool) else w.ch.perm), w.phase, Between, [])
  {
    ExecAppend(cfg, steps, RouteEffect);
  }

  /** Tokens of output since the newest soft stop, from the lines alone: estimates, replaced by each reported total. */
  function Spent(log: seq<Obs>, atMark: int): int {
    if log == [] then 0
    else
      var before := Spent(log[..|log| - 1], atMark);
      match log[|log| - 1]
      case SoftStopSent => 0
      case Line(Assistant, n) => before + n / 4
      case Line(Result(Some(total)), _) => if total <= 0 then before else if total >= atMark then total - atMark else 0
      case _ => before
  }

  /** Since the newest soft stop, some line brought the tokens spent to the headroom. */
  predicate UsedUp(log: seq<Obs>, atMark: int, headroom: int) {
    log != [] && !log[|log| - 1].SoftStopSent? &&
    (UsedUp(log[..|log| - 1], atMark, headroom) || (Counts(log[|log| - 1]) && Spent(log, atMark) >= headroom))
  }

  /** The line brings a count. */
  predicate Counts(o: Obs) {
    o.Line? && (o.kind.Assistant? || (o.kind.Result? && o.kind.tokens.Some? && o.kind.tokens.value > 0))
  }

  /** The count and the tier of a pending stop, read off the history. */
  predicate Tallied(cfg: Config, m: Monitor, log: seq<Obs>) {
    Counting(m.reason) ==>
      && m.sinceMark == Spent(log, m.atMark)
      && (m.reason.QuotaHard? <==> cfg.headroom == 0 || (cfg.headroom > 0 && UsedUp(log, m.atMark, cfg.headroom)))
  }

  lemma Append(log: seq<Obs>, o: Obs, atMark: int, headroom: int)
    ensures var more := log + [o];
            && Spent(more, atMark) ==
               (match o
                case SoftStopSent => 0
                case Line(Assistant, n) => Spent(log, atMark) + n / 4
                case Line(Result(Some(t)), _) =>
                  if t <= 0 then Spent(log, atMark) else if t >= atMark then t - atMark else 0
                case _ => Spent(log, atMark))
            && (UsedUp(more, atMark, headroom) <==>
                !o.SoftStopSent? && (UsedUp(log, atMark, headroom) || (Counts(o) && Spent(more, atMark) >= headroom)))
  {
    assert (log + [o])[..|log|] == log;
  }

  lemma TalliedLine(w: World, kind: LineKind, bytes: nat)
    requires Tallied(w.cfg, w.m, w.h.log)
    ensures Tallied(w.cfg, OnRawOutput(w, kind, bytes).m, OnRawOutput(w, kind, bytes).h.log)
  {
    var line := Line(kind, bytes);
    Append(w.h.log, line, w.m.atMark, w.cfg.headroom);
    Append(w.h.log + [line], InterruptTried, w.m.atMark, w.cfg.headroom);
  }

  lemma TalliedTurnEnd(w: World)
    requires Tallied(w.cfg, w.m, w.h.log)
    ensures Tallied(w.cfg, HandleTurnEnd(w).m, HandleTurnEnd(w).h.log)
  {}

  lemma TalliedQuota(w: World, msg: QuotaMsg, now: int)
    requires Tallied(w.cfg, w.m, w.h.log)
    ensures Tallied(w.cfg, HandleQuota(w, msg, now).m, HandleQuota(w, msg, now).h.log)
  {
    if msg.QuotaMsg? {
      var w' := HandleQuota(w, msg, now);
      var l, at, head := w.h.log + [Reading(msg.hasData, msg.u5)], w'.m.atMark, w.cfg.headroom;
      Append(w.h.log, Reading(msg.hasData, msg.u5), at, head);
      if w'.m.reason != w.m.reason {
        Append(l, SoftStopSent, at, head);
        Append(l + [SoftStopSent], InterruptTried, at, head);
      } else if w'.s != w.s {
        var send := if w.s.status.Pending? then PromptSent else NudgeSent(now);
        Append(l, send, at, head);
        Append(l + [send], KVWrite(w'.s), at, head);
      }
    }
  }

  lemma TalliedExit(w: World)
    requires Tallied(w.cfg, w.m, w.h.log)
    ensures Tallied(w.cfg, HandleSubprocessExit(w).m, HandleSubprocessExit(w).h.log)
  {
    Append(w.h.log, FailedEvent, w.m.atMark, w.cfg.headroom);
    Append(w.h.log + [FailedEvent], KVWrite(HandleSubprocessExit(w).s), w.m.atMark, w.cfg.headroom);
  }

  lemma TalliedStep(w: World, step: Step)
    requires Tallied(w.cfg, w.m, w.h.log)
    ensures Tallied(w.cfg, Next(w, step).m, Next(w, step).h.log)
  {
    match step
    case Route(kind, bytes, _) => TalliedLine(w, kind, bytes);
    case Drain => TalliedTurnEnd(w.(ch := w.ch.(turn := false)));
    case SelectTurnEnd => TalliedTurnEnd(w.(phase := Top, ch := w.ch.(turn := false)));
    case SelectQuota(msg, now) => TalliedQuota(w.(phase := Top), msg, now);
    case SelectPerm => Append(w.h.log, KVWrite(Next(w, step).s), w.m.atMark, w.cfg.headroom);
    case SelectDone =>
      TalliedTurnEnd(w.(ch := w.ch.(turn := false)));
      TalliedExit(if w.ch.turn then TakeTurnEnd(w) else w);
    case _ =>
  }

  /**
   A pending stop has counted exactly the tokens its lines spent, and is hard exactly when they used up the
   headroom.
   */
  lemma {:induction false} TokensAreTallied(cfg: Config, steps: seq<Step>)
    ensures var w := Exec(cfg, steps); Tallied(cfg, w.m, w.h.log)
  {
    if steps != [] {
      TokensAreTallied(cfg, steps[..|steps| - 1]);
      ConfigIsFixed(cfg, steps[..|steps| - 1]);
      TalliedStep(Exec(cfg, steps[..|steps| - 1]), steps[|steps| - 1]);
    }
  }

  /**
   A line is noted, with an interrupt exactly when it uses up the headroom of a soft stop; a result line queues
   a turn end.
   */
  lemma LineOutcome(cfg: Config, steps: seq<Step>, kind: LineKind, bytes: nat, e: SideEffect)
    requires Exec(cfg, steps).router.Between?
    ensures var w := Exec(cfg, steps);
            var line := Line(kind, bytes);
            var counts := Counting(w.m.reason) && Counts(line);
            var spent := Spent(w.h.log + [line], w.m.atMark);
            var hardens := counts && w.m.reason.QuotaSoft? && cfg.headroom > 0 && spent >= cfg.headroom;
            var m := w.m.(sinceMark := if counts then spent else w.m.sinceMark,
                          reason := if hardens then QuotaHard else w.m.reason);
            Did(w, Then(cfg, steps, Route(kind, bytes, e)), m,
                w.s, w.ch.(turn := w.ch.turn || kind.Result?), w.phase, Owing(e),
                [line] + if hardens then [InterruptTried] else [])
  {
    ConfigIsFixed(cfg, steps);
    TokensAreTallied(cfg, steps);
    ExecAppend(cfg, steps, Route(kind, bytes, e));
    Append(Exec(cfg, steps).h.log, Line(kind, bytes), Exec(cfg, steps).m.atMark, cfg.headroom);
  }
}

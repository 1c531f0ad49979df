/**
 When a paused session may be resumed: with `autoContinue`, no nudge is sent before the reset time
 its latest pause announced, as long as the driver does not itself report "paused".
 */
module QuotaResumeLaws {
  import opened Basics
  import opened QuotaSpec
  import opened QuotaLaws

  /** The reset time the newest pause announced; 0 stands for none. */
  function LastPause(log: seq<Obs>): Option<int> {
    if log == [] then None
    else if log[|log| - 1].PausedEvent? then Some(log[|log| - 1].r5)
    else LastPause(log[..|log| - 1])
  }

  predicate InTime(pause: Option<int>, at: int) { pause.Some? && (pause.value != 0 ==> at >= pause.value) }

  /** Every nudge came after a pause, and not before the reset time that pause announced. */
  predicate Paced(log: seq<Obs>) {
    log == [] ||
    var init, last := log[..|log| - 1], log[|log| - 1];
    Paced(init) && (last.NudgeSent? ==> InTime(LastPause(init), last.at))
  }

  lemma {:induction false} PacedAt(log: seq<Obs>, i: nat)
    requires Paced(log) && i < |log| && log[i].NudgeSent?
    ensures InTime(LastPause(log[..i]), log[i].at)
  {
    var init := log[..|log| - 1];
    if i < |log| - 1 {
      PacedAt(init, i);
      assert init[..i] == log[..i];
    }
  }

  /** A paused session carries the reset time of its latest pause. */
  predicate Scheduled(s: Session, pause: Option<int>) {
    s.status.Paused? ==> pause.Some? && (pause.value != 0 ==> s.resumeAt == Some(pause.value))
  }

  lemma Grow(log: seq<Obs>, o: Obs)
    ensures LastPause(log + [o]) == if o.PausedEvent? then Some(o.r5) else LastPause(log)
    ensures Paced(log + [o]) <==> Paced(log) && (o.NudgeSent? ==> InTime(LastPause(log), o.at))
  {
    assert (log + [o])[..|log|] == log;
  }

  predicate Timely(w: World) { w.cfg.autoContinue && Paced(w.h.log) && Scheduled(w.s, LastPause(w.h.log)) }

  lemma TimelyTurnEnd(w: World)
    requires Timely(w)
    ensures Timely(HandleTurnEnd(w))
  {
    var first := if w.m.reason.NoStop? then CompleteEvent else PausedEvent(w.m.reason, w.m.r5, w.m.sinceMark);
    Grow(w.h.log, first);
    Grow(w.h.log + [first], KVWrite(HandleTurnEnd(w).s));
  }

  lemma TimelyExit(w: World)
    requires Timely(w)
    ensures Timely(HandleSubprocessExit(w))
  {
    Grow(w.h.log, FailedEvent);
    Grow(w.h.log + [FailedEvent], KVWrite(HandleSubprocessExit(w).s));
  }

  lemma TimelyQuota(w: World, msg: QuotaMsg, now: int)
    requires Timely(w)
    ensures Timely(HandleQuota(w, msg, now))
  {
    if msg.QuotaMsg? {
      var w' := HandleQuota(w, msg, now);
      var read := Reading(msg.hasData, msg.u5);
      var l := w.h.log + [read];
      Grow(w.h.log, read);
      if w'.m.reason != w.m.reason {
        Grow(l, SoftStopSent);
        Grow(l + [SoftStopSent], InterruptTried);
      } else if w'.s != w.s {
        var send := if w.s.status.Pending? then PromptSent else NudgeSent(now);
        Grow(l, send);
        Grow(l + [send], KVWrite(w'.s));
      }
    }
  }

  lemma TimelyStep(w: World, step: Step, reportable: Status -> bool)
    requires Timely(w) && Owes(w.router, reportable) && !reportable(Paused)
    ensures Timely(Next(w, step))
  {
    match step
    case Route(kind, bytes, _) =>
      Grow(w.h.log, Line(kind, bytes));
      Grow(w.h.log + [Line(kind, bytes)], InterruptTried);
    case Drain => TimelyTurnEnd(w.(ch := w.ch.(turn := false)));
    case SelectTurnEnd => TimelyTurnEnd(w.(phase := Top, ch := w.ch.(turn := false)));
    case SelectQuota(msg, now) => TimelyQuota(w.(phase := Top), msg, now);
    case SelectPerm => Grow(w.h.log, KVWrite(Next(w, step).s));
    case SelectDone =>
      TimelyTurnEnd(w.(ch := w.ch.(turn := false)));
      TimelyExit(if w.ch.turn then TakeTurnEnd(w) else w);
    case _ =>
  }

  lemma {:induction false} TimelyInRun(cfg: Config, steps: seq<Step>, reportable: Status -> bool)
    requires cfg.autoContinue && AllReport(steps, reportable) && !reportable(Paused)
    ensures Timely(Exec(cfg, steps)) && Owes(Exec(cfg, steps).router, reportable)
  {
    if steps != [] {
      var pre, last := steps[..|steps| - 1], steps[|steps| - 1];
      assert AllReport(pre, reportable) by {
        forall i | 0 <= i < |pre| ensures Reports(pre[i], reportable) {
          assert pre[i] == steps[i];
        }
      }
      TimelyInRun(cfg, pre, reportable);
      TimelyStep(Exec(cfg, pre), last, reportable);
      assert Reports(last, reportable);
    }
  }

  lemma {:induction false} NudgedAfterPause(log: seq<Obs>)
    requires Paced(log)
    ensures var t := Summary(log);
            && (LastPause(log).Some? ==> t.stops.softPauses + t.stops.hardPauses > 0)
            && (t.sends.nudges > 0 ==> LastPause(log).Some?)
  {
    if log != [] { NudgedAfterPause(log[..|log| - 1]); }
  }

  /**
   With `autoContinue`, every nudge follows a pause and waits for the reset time that pause announced,
   if it announced one, exactly when the driver never reports "paused".
   */
  lemma NudgesWaitForResetIff(cfg: Config, reportable: Status -> bool)
    requires cfg.autoContinue
    ensures (forall steps | AllReport(steps, reportable) :: Paced(Exec(cfg, steps).h.log)) <==> !reportable(Paused)
  {
    if !reportable(Paused) {
      forall steps | AllReport(steps, reportable)
        ensures Paced(Exec(cfg, steps).h.log)
      {
        TimelyInRun(cfg, steps, reportable);
      }
    } else {
      var once := [] + ReportThenLowReading(cfg, Paused);
      ReportReopensSending(cfg, [], Paused);
      TotalsAreExact(cfg, once);
      assert AllReport(once, reportable);
      assert !Paced(Exec(cfg, once).h.log) by {
        if Paced(Exec(cfg, once).h.log) { NudgedAfterPause(Exec(cfg, once).h.log); }
      }
    }
  }

  /** One nudge at a time. */
  lemma NudgeWaitsForReset(cfg: Config, steps: seq<Step>, reportable: Status -> bool, i: nat)
    requires cfg.autoContinue && AllReport(steps, reportable) && !reportable(Paused)
    requires i < |Exec(cfg, steps).h.log| && Exec(cfg, steps).h.log[i].NudgeSent?
    ensures var log := Exec(cfg, steps).h.log; InTime(LastPause(log[..i]), log[i].at)
  {
    TimelyInRun(cfg, steps, reportable);
    PacedAt(Exec(cfg, steps).h.log, i);
  }
}

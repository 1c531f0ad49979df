/**
 Laws of every run of the quota monitor: counting of stops, pauses and interrupts, the token
 bound of a soft stop, failure reporting, and when prompts and nudges may be sent.
 */
module QuotaLaws {
  import opened Basics
  import opened QuotaSpec

  function LastReading(log: seq<Obs>): Option<Obs> {
    if log == [] then None
    else if log[|log| - 1].Reading? then Some(log[|log| - 1])
    else LastReading(log[..|log| - 1])
  }

  /** The newest quota reading before index `i` carried data and was below the threshold. */
  predicate QuotaAllowed(log: seq<Obs>, i: nat, threshold: int)
    requires i <= |log|
  {
    var r := LastReading(log[..i]);
    r.Some? && r.value.Reading? && r.value.hasData && r.value.u5 < threshold
  }

  // ---------------------------------------------------------------- invariants

  predicate Accounts(m: Monitor, t: Totals) {
    && t.stops.softStops == t.stops.softPauses + t.stops.hardPauses + (if Counting(m.reason) then 1 else 0)
    && t.stops.interrupts == t.stops.hardPauses + (if m.reason.QuotaHard? then 1 else 0)
    && t.kv.paused == t.stops.softPauses + t.stops.hardPauses
    && t.kv.completed == t.ends.completes
    && t.kv.failed == t.ends.fails
  }

  predicate Budget(cfg: Config, m: Monitor, mark: Mark) {
    && (m.reason.QuotaSoft? ==> 0 <= m.sinceMark < cfg.headroom)
    && (!Counting(m.reason) ==> m.sinceMark == 0)
    && (m.reason.QuotaSoft? && mark.results == 0 ==> mark.bytes <= 4 * m.sinceMark + 3 * mark.lines)
  }

  predicate TurnEnds(w: World) {
    var e := w.h.totals.ends;
    var pauses := w.h.totals.stops.softPauses + w.h.totals.stops.hardPauses;
    && (e.results > 0 <==> w.ch.turn || w.m.terminal)
    && e.completes + pauses + (if w.ch.turn then 1 else 0) <= e.results
    && (w.phase.Left? && w.phase.viaDone ==> w.router.Gone?)
    && e.fails == if w.phase.Left? && w.phase.viaDone && e.results == 0 then 1 else 0
  }

  predicate PromptedOnce(s: Session, t: Totals) {
    t.sends.prompts + (if s.status.Pending? then 1 else 0) <= 1
  }

  predicate NudgedPerPause(s: Session, t: Totals) {
    && t.sends.nudges + (if s.status.Paused? then 1 else 0) <= t.stops.softPauses + t.stops.hardPauses
    && (s.status.Paused? ==> !s.pausedVia.NoStop?)
  }

  /** Every pause event is followed by the KV write of a paused session naming the same tier. */
  ghost predicate PausesPersisted(log: seq<Obs>) {
    forall i | 0 <= i < |log| && log[i].PausedEvent? ::
      && i + 1 < |log| && log[i + 1].KVWrite?
      && log[i + 1].written.status.Paused? && log[i + 1].written.pausedVia == log[i].via
  }

  ghost predicate SendsAllowed(log: seq<Obs>, threshold: int) {
    forall i | 0 <= i < |log| && (log[i].PromptSent? || log[i].NudgeSent?) :: QuotaAllowed(log, i, threshold)
  }

  lemma AccountsStep(w: World, step: Step)
    requires Accounts(w.m, w.h.totals)
    ensures Accounts(Next(w, step).m, Next(w, step).h.totals)
  {
    match step
    case Route(kind, bytes, _) => AccountsRaw(w, kind, bytes);
    case SelectQuota(msg, now) => AccountsQuota(w.(phase := Top), msg, now);
    case Drain => AccountsTurnEnd(w.(ch := w.ch.(turn := false)));
    case SelectTurnEnd => AccountsTurnEnd(w.(phase := Top, ch := w.ch.(turn := false)));
    case SelectDone => AccountsTurnEnd(w.(ch := w.ch.(turn := false)));
    case _ =>
  }

  lemma AccountsRaw(w: World, kind: LineKind, bytes: nat)
    requires Accounts(w.m, w.h.totals)
    ensures Accounts(OnRawOutput(w, kind, bytes).m, OnRawOutput(w, kind, bytes).h.totals)
  {}

  lemma AccountsTurnEnd(w: World)
    requires Accounts(w.m, w.h.totals)
    ensures Accounts(HandleTurnEnd(w).m, HandleTurnEnd(w).h.totals)
  {}

  lemma AccountsQuota(w: World, msg: QuotaMsg, now: int)
    requires Accounts(w.m, w.h.totals)
    ensures Accounts(HandleQuota(w, msg, now).m, HandleQuota(w, msg, now).h.totals)
  {}

  lemma BudgetStep(w: World, step: Step)
    requires w.cfg.headroom >= 0 && Budget(w.cfg, w.m, w.h.totals.mark)
    ensures Budget(w.cfg, Next(w, step).m, Next(w, step).h.totals.mark)
  {
    match step
    case Route(kind, bytes, _) => BudgetRaw(w, kind, bytes);
    case _ =>
  }

  lemma BudgetRaw(w: World, kind: LineKind, bytes: nat)
    requires w.cfg.headroom >= 0 && Budget(w.cfg, w.m, w.h.totals.mark)
    ensures Budget(w.cfg, OnRawOutput(w, kind, bytes).m, OnRawOutput(w, kind, bytes).h.totals.mark)
  {}

  lemma TurnEndsStep(w: World, step: Step)
    requires TurnEnds(w)
    ensures TurnEnds(Next(w, step))
  {
    match step
    case Drain => if w.phase.Top? && w.ch.turn { TurnEndsTaken(w); }
    case SelectTurnEnd => if w.phase.Selecting? && w.ch.turn { TurnEndsTaken(w.(phase := Top)); }
    case SelectDone => if w.phase.Selecting? && w.ch.turn { TurnEndsTaken(w); }
    case _ =>
  }

  lemma TurnEndsTaken(w: World)
    requires TurnEnds(w) && w.ch.turn && !w.phase.Left?
    ensures TurnEnds(TakeTurnEnd(w)) && TakeTurnEnd(w).m.terminal
  {}

  /** Statuses the driver may report; the router has not yet taken in the one it owes. */
  predicate Owes(router: Router, reportable: Status -> bool) {
    router.Owing? && router.effect.SetStatus? ==> reportable(router.effect.status)
  }

  predicate Reports(step: Step, reportable: Status -> bool) {
    step.Route? && step.effect.SetStatus? ==> reportable(step.effect.status)
  }

  ghost predicate AllReport(steps: seq<Step>, reportable: Status -> bool) {
    forall i | 0 <= i < |steps| :: Reports(steps[i], reportable)
  }

  lemma PromptedOnceStep(w: World, step: Step, reportable: Status -> bool)
    requires PromptedOnce(w.s, w.h.totals) && Owes(w.router, reportable) && !reportable(Pending)
    ensures PromptedOnce(Next(w, step).s, Next(w, step).h.totals)
  {}

  lemma NudgedPerPauseStep(w: World, step: Step, reportable: Status -> bool)
    requires NudgedPerPause(w.s, w.h.totals) && Owes(w.router, reportable) && !reportable(Paused)
    ensures NudgedPerPause(Next(w, step).s, Next(w, step).h.totals)
  {
    match step
    case Drain => NudgedPerPauseTurnEnd(w.(ch := w.ch.(turn := false)));
    case SelectTurnEnd => NudgedPerPauseTurnEnd(w.(phase := Top, ch := w.ch.(turn := false)));
    case SelectDone => NudgedPerPauseTurnEnd(w.(ch := w.ch.(turn := false)));
    case _ =>
  }

  lemma NudgedPerPauseTurnEnd(w: World)
    requires NudgedPerPause(w.s, w.h.totals)
    ensures NudgedPerPause(HandleTurnEnd(w).s, HandleTurnEnd(w).h.totals)
  {}

  lemma LastReadingAfter(log: seq<Obs>, o: Obs)
    ensures LastReading(log + [o]) == if o.Reading? then Some(o) else LastReading(log)
  {
    assert (log + [o])[..|log|] == log;
  }

  /** What `LogsOf` promises about a history. */
  ghost predicate LogsOk(log: seq<Obs>, threshold: int) {
    SendsAllowed(log, threshold) && PausesPersisted(log)
  }

  lemma LogsAppend(log: seq<Obs>, o: Obs, threshold: int)
    requires LogsOk(log, threshold) && !o.PausedEvent?
    requires o.PromptSent? || o.NudgeSent? ==> QuotaAllowed(log, |log|, threshold)
    ensures LogsOk(log + [o], threshold)
  {
    var more := log + [o];
    assert more[..|log|] == log[..|log|] == log;
    forall i | 0 <= i < |log| ensures more[..i] == log[..i] {}
    assert forall i | 0 <= i < |log| :: more[i] == log[i];
  }

  lemma LogsPause(log: seq<Obs>, pause: Obs, write: Obs, threshold: int)
    requires LogsOk(log, threshold) && pause.PausedEvent? && write.KVWrite?
    requires write.written.status.Paused? && write.written.pausedVia == pause.via
    ensures LogsOk(log + [pause] + [write], threshold)
  {
    var more := log + [pause] + [write];
    forall i | 0 <= i < |log| ensures more[..i] == log[..i] {}
    assert forall i | 0 <= i < |log| :: more[i] == log[i];
  }

  lemma LogsTurnEnd(w: World)
    requires LogsOk(w.h.log, w.cfg.softThreshold)
    ensures LogsOk(HandleTurnEnd(w).h.log, w.cfg.softThreshold)
  {
    var w' := HandleTurnEnd(w);
    if Counting(w.m.reason) {
      LogsPause(w.h.log, PausedEvent(w.m.reason, w.m.r5, w.m.sinceMark), KVWrite(w'.s), w.cfg.softThreshold);
    } else {
      LogsAppend(w.h.log, CompleteEvent, w.cfg.softThreshold);
      LogsAppend(w.h.log + [CompleteEvent], KVWrite(w'.s), w.cfg.softThreshold);
    }
  }

  lemma LogsQuota(w: World, msg: QuotaMsg, now: int)
    requires LogsOk(w.h.log, w.cfg.softThreshold)
    ensures LogsOk(HandleQuota(w, msg, now).h.log, w.cfg.softThreshold)
  {
    if msg.QuotaMsg? {
      var w', r, thr := HandleQuota(w, msg, now), Reading(msg.hasData, msg.u5), w.cfg.softThreshold;
      var l := w.h.log + [r];
      LogsAppend(w.h.log, r, thr);
      LastReadingAfter(w.h.log, r);
      assert l[..|l|] == l;
      if w'.m.reason != w.m.reason {
        LogsAppend(l, SoftStopSent, thr);
        LogsAppend(l + [SoftStopSent], InterruptTried, thr);
      } else if w'.s != w.s {
        var send := if w.s.status.Pending? then PromptSent else NudgeSent(now);
        LogsAppend(l, send, thr);
        LogsAppend(l + [send], KVWrite(w'.s), thr);
      }
    }
  }

  lemma LogsExit(w: World)
    requires LogsOk(w.h.log, w.cfg.softThreshold)
    ensures LogsOk(HandleSubprocessExit(w).h.log, w.cfg.softThreshold)
  {
    LogsAppend(w.h.log, FailedEvent, w.cfg.softThreshold);
    LogsAppend(w.h.log + [FailedEvent], KVWrite(HandleSubprocessExit(w).s), w.cfg.softThreshold);
  }

  lemma LogsStep(w: World, step: Step)
    requires LogsOk(w.h.log, w.cfg.softThreshold)
    ensures LogsOk(Next(w, step).h.log, w.cfg.softThreshold)
  {
    match step
    case Route(kind, bytes, _) =>
      LogsAppend(w.h.log, Line(kind, bytes), w.cfg.softThreshold);
      LogsAppend(w.h.log + [Line(kind, bytes)], InterruptTried, w.cfg.softThreshold);
    case Drain => LogsTurnEnd(w.(ch := w.ch.(turn := false)));
    case SelectTurnEnd => LogsTurnEnd(w.(phase := Top, ch := w.ch.(turn := false)));
    case SelectQuota(msg, now) => LogsQuota(w.(phase := Top), msg, now);
    case SelectPerm => LogsAppend(w.h.log, KVWrite(Next(w, step).s), w.cfg.softThreshold);
    case SelectDone =>
      LogsTurnEnd(w.(ch := w.ch.(turn := false)));
      LogsExit(if w.ch.turn then TakeTurnEnd(w) else w);
    case _ =>
  }

  lemma TotalsStep(w: World, step: Step)
    requires w.h.totals == Summary(w.h.log)
    ensures Next(w, step).h.totals == Summary(Next(w, step).h.log)
  {
    match step
    case Route(kind, bytes, _) =>
      TotalsAdd(w.h, Line(kind, bytes));
      TotalsAdd(Add(w.h, Line(kind, bytes)), InterruptTried);
    case Drain => TotalsTurnEnd(w.(ch := w.ch.(turn := false)));
    case SelectTurnEnd => TotalsTurnEnd(w.(phase := Top, ch := w.ch.(turn := false)));
    case SelectQuota(msg, now) => TotalsQuota(w.(phase := Top), msg, now);
    case SelectPerm => TotalsAdd(w.h, KVWrite(Next(w, step).s));
    case SelectDone =>
      TotalsTurnEnd(w.(ch := w.ch.(turn := false)));
      var w1 := if w.ch.turn then TakeTurnEnd(w) else w;
      TotalsAdd(w1.h, FailedEvent);
      TotalsAdd(Add(w1.h, FailedEvent), KVWrite(HandleSubprocessExit(w1).s));
    case _ =>
  }

  lemma TotalsAdd(h: History, o: Obs)
    requires h.totals == Summary(h.log)
    ensures Add(h, o).totals == Summary(Add(h, o).log)
  {
    assert (h.log + [o])[..|h.log|] == h.log;
  }

  lemma TotalsTurnEnd(w: World)
    requires w.h.totals == Summary(w.h.log)
    ensures HandleTurnEnd(w).h.totals == Summary(HandleTurnEnd(w).h.log)
  {
    var first := if w.m.reason.NoStop? then CompleteEvent else PausedEvent(w.m.reason, w.m.r5, w.m.sinceMark);
    TotalsAdd(w.h, first);
    TotalsAdd(Add(w.h, first), KVWrite(HandleTurnEnd(w).s));
  }

  lemma TotalsQuota(w: World, msg: QuotaMsg, now: int)
    requires w.h.totals == Summary(w.h.log)
    ensures HandleQuota(w, msg, now).h.totals == Summary(HandleQuota(w, msg, now).h.log)
  {
    if msg.QuotaMsg? {
      var w' := HandleQuota(w, msg, now);
      var h := Add(w.h, Reading(msg.hasData, msg.u5));
      var send := if w'.m.reason != w.m.reason then SoftStopSent else if w.s.status.Pending? then PromptSent
          else NudgeSent(now);
      TotalsAdd(w.h, Reading(msg.hasData, msg.u5));
      TotalsAdd(h, send);
      TotalsAdd(Add(h, send), if w'.m.reason != w.m.reason then InterruptTried else KVWrite(w'.s));
    }
  }

  // ---------------------------------------------------------------- whole runs

  lemma ExecAppend(cfg: Config, steps: seq<Step>, step: Step)
    ensures Exec(cfg, steps + [step]) == Next(Exec(cfg, steps), step)
  {
    assert (steps + [step])[..|steps|] == steps;
  }

  lemma {:induction false} ConfigIsFixed(cfg: Config, steps: seq<Step>)
    ensures Exec(cfg, steps).cfg == cfg
  {
    if steps != [] { ConfigIsFixed(cfg, steps[..|steps| - 1]); }
  }

  lemma {:induction false} TotalsAreExact(cfg: Config, steps: seq<Step>)
    ensures Exec(cfg, steps).h.totals == Summary(Exec(cfg, steps).h.log)
  {
    if steps != [] {
      TotalsAreExact(cfg, steps[..|steps| - 1]);
      TotalsStep(Exec(cfg, steps[..|steps| - 1]), steps[|steps| - 1]);
    }
  }

  /** Soft stops match pauses, interrupts match hard pauses, and each lifecycle event its KV write. */
  lemma {:induction false} StopsMatchPauses(cfg: Config, steps: seq<Step>)
    ensures var w := Exec(cfg, steps); Accounts(w.m, Summary(w.h.log))
  {
    TotalsAreExact(cfg, steps);
    if steps != [] {
      var pre := Exec(cfg, steps[..|steps| - 1]);
      StopsMatchPauses(cfg, steps[..|steps| - 1]);
      TotalsAreExact(cfg, steps[..|steps| - 1]);
      AccountsStep(pre, steps[|steps| - 1]);
    }
  }

  lemma {:induction false} BudgetInRun(cfg: Config, steps: seq<Step>)
    requires cfg.headroom >= 0
    ensures var w := Exec(cfg, steps); Budget(cfg, w.m, Summary(w.h.log).mark)
  {
    TotalsAreExact(cfg, steps);
    if steps != [] {
      var pre := Exec(cfg, steps[..|steps| - 1]);
      BudgetInRun(cfg, steps[..|steps| - 1]);
      TotalsAreExact(cfg, steps[..|steps| - 1]);
      ConfigIsFixed(cfg, steps[..|steps| - 1]);
      BudgetStep(pre, steps[|steps| - 1]);
    }
  }

  /** The token bound of a soft stop holds in every run exactly when the headroom is not negative. */
  lemma SoftStopIsBoundedIff(cfg: Config)
    ensures (forall steps :: var w := Exec(cfg, steps); w.m.reason.QuotaSoft? ==> 0 <= w.m.sinceMark < cfg.headroom)
            <==> cfg.headroom >= 0
  {
    if cfg.headroom >= 0 {
      forall steps ensures var w := Exec(cfg, steps); w.m.reason.QuotaSoft? ==> 0 <= w.m.sinceMark < cfg.headroom {
        BudgetInRun(cfg, steps);
      }
    } else {
      var breach := SelectQuota(QuotaMsg(true, cfg.softThreshold, 0), 0);
      ExecAppend(cfg, [], Drain);
      ExecAppend(cfg, [Drain], breach);
      assert [] + [Drain] == [Drain];
      assert Exec(cfg, [Drain] + [breach]).m.reason.QuotaSoft?;
    }
  }

  /** While a soft stop is pending and no result line came, the assistant bytes since it are bounded. */
  lemma SoftStopByteBound(cfg: Config, steps: seq<Step>)
    requires cfg.headroom >= 0
    ensures var w := Exec(cfg, steps);
            var mark := Summary(w.h.log).mark;
            w.m.reason.QuotaSoft? && mark.results == 0 ==> mark.bytes < 4 * cfg.headroom + 3 * mark.lines
  {
    BudgetInRun(cfg, steps);
  }

  lemma {:induction false} TurnEndsInRun(cfg: Config, steps: seq<Step>)
    ensures TurnEnds(Exec(cfg, steps))
  {
    if steps != [] {
      TurnEndsInRun(cfg, steps[..|steps| - 1]);
      TurnEndsStep(Exec(cfg, steps[..|steps| - 1]), steps[|steps| - 1]);
    }
  }

  /** Leaving through `doneCh` reports failure exactly once without a result line and never with one. */
  lemma FailureIffNoResult(cfg: Config, steps: seq<Step>)
    ensures var w := Exec(cfg, steps);
            var ends := Summary(w.h.log).ends;
            ends.fails == if w.phase.Left? && w.phase.viaDone && ends.results == 0 then 1 else 0
  {
    TurnEndsInRun(cfg, steps);
    TotalsAreExact(cfg, steps);
  }

  /** No turn end is published twice: completions, pauses and the queued turn end never exceed the result lines. */
  lemma TurnEndsComeFromResults(cfg: Config, steps: seq<Step>)
    ensures var w := Exec(cfg, steps);
            var t := Summary(w.h.log);
            t.ends.completes + t.stops.softPauses + t.stops.hardPauses + (if w.ch.turn then 1 else 0) <= t.ends.results
  {
    TurnEndsInRun(cfg, steps);
    TotalsAreExact(cfg, steps);
  }

  lemma {:induction false} LogsInRun(cfg: Config, steps: seq<Step>)
    ensures LogsOk(Exec(cfg, steps).h.log, cfg.softThreshold)
  {
    ConfigIsFixed(cfg, steps);
    if steps != [] {
      LogsInRun(cfg, steps[..|steps| - 1]);
      ConfigIsFixed(cfg, steps[..|steps| - 1]);
      LogsStep(Exec(cfg, steps[..|steps| - 1]), steps[|steps| - 1]);
    }
  }

  /** Every prompt or nudge was preceded by a latest reading with data below the threshold. */
  lemma SendsFollowALowReading(cfg: Config, steps: seq<Step>, i: nat)
    requires i < |Exec(cfg, steps).h.log|
    requires Exec(cfg, steps).h.log[i].PromptSent? || Exec(cfg, steps).h.log[i].NudgeSent?
    ensures QuotaAllowed(Exec(cfg, steps).h.log, i, cfg.softThreshold)
  {
    LogsInRun(cfg, steps);
  }

  lemma PausesArePersisted(cfg: Config, steps: seq<Step>, i: nat)
    requires i < |Exec(cfg, steps).h.log| && Exec(cfg, steps).h.log[i].PausedEvent?
    ensures var log := Exec(cfg, steps).h.log;
            && i + 1 < |log| && log[i + 1].KVWrite?
            && log[i + 1].written.status.Paused? && log[i + 1].written.pausedVia == log[i].via
  {
    LogsInRun(cfg, steps);
  }

  lemma {:induction false} PromptedOnceInRun(cfg: Config, steps: seq<Step>, reportable: Status -> bool)
    requires AllReport(steps, reportable) && !reportable(Pending)
    ensures var w := Exec(cfg, steps); PromptedOnce(w.s, w.h.totals) && Owes(w.router, reportable)
  {
    if steps != [] {
      var pre, last := steps[..|steps| - 1], steps[|steps| - 1];
      assert AllReport(pre, reportable) by {
        forall i | 0 <= i < |pre| ensures Reports(pre[i], reportable) {
          assert pre[i] == steps[i];
        }
      }
      PromptedOnceInRun(cfg, pre, reportable);
      PromptedOnceStep(Exec(cfg, pre), last, reportable);
      assert Reports(last, reportable);
    }
  }

  lemma {:induction false} NudgedPerPauseInRun(cfg: Config, steps: seq<Step>, reportable: Status -> bool)
    requires AllReport(steps, reportable) && !reportable(Paused)
    ensures var w := Exec(cfg, steps); NudgedPerPause(w.s, w.h.totals) && Owes(w.router, reportable)
  {
    if steps != [] {
      var pre, last := steps[..|steps| - 1], steps[|steps| - 1];
      assert AllReport(pre, reportable) by {
        forall i | 0 <= i < |pre| ensures Reports(pre[i], reportable) {
          assert pre[i] == steps[i];
        }
      }
      NudgedPerPauseInRun(cfg, pre, reportable);
      NudgedPerPauseStep(Exec(cfg, pre), last, reportable);
      assert Reports(last, reportable);
    }
  }

  /** A driver report of `st` while the monitor is idle, then a reading that allows sending. */
  function ReportThenLowReading(cfg: Config, st: Status): seq<Step> {
    [Route(OtherLine, 0, SetStatus(st)), RouteEffect, Drain, SelectQuota(QuotaMsg(true, cfg.softThreshold - 1, 0), 0)]
  }

  /** The first three of those steps bring the reported status to an idle monitor. */
  lemma ReportArrives(cfg: Config, steps: seq<Step>, st: Status)
    requires var w := Exec(cfg, steps); w.router.Between? && w.phase.Top? && !w.ch.turn
    ensures var w := Exec(cfg, steps);
            Exec(cfg, steps + ReportThenLowReading(cfg, st)[..3]) ==
            w.(s := w.s.(status := st), phase := Selecting, h := Add(w.h, Line(OtherLine, 0)))
  {
    var w, more := Exec(cfg, steps), ReportThenLowReading(cfg, st);
    var s1 := steps + [more[0]];
    var s2 := s1 + [more[1]];
    ExecAppend(cfg, steps, more[0]);
    ExecAppend(cfg, s1, more[1]);
    ExecAppend(cfg, s2, more[2]);
    assert steps + more[..3] == s2 + [more[2]];
    assert Exec(cfg, s1) == w.(router := Owing(SetStatus(st)), h := Add(w.h, Line(OtherLine, 0)));
  }

  /** Such a report makes the monitor send again, whatever it sent before. */
  lemma ReportReopensSending(cfg: Config, steps: seq<Step>, st: Status)
    requires st.Pending? || st.Paused?
    requires var w := Exec(cfg, steps);
             w.router.Between? && w.phase.Top? && !w.ch.turn && w.s.resumeAt.None?
    ensures var w, w' := Exec(cfg, steps), Exec(cfg, steps + ReportThenLowReading(cfg, st));
            && w'.router.Between? && w'.phase.Top? && !w'.ch.turn && w'.s.resumeAt.None?
            && w'.h.totals.stops == w.h.totals.stops
            && w'.h.totals.sends == if st.Pending? then Sends(w.h.totals.sends.prompts + 1, w.h.totals.sends.nudges)
                                    else Sends(w.h.totals.sends.prompts, w.h.totals.sends.nudges + 1)
  {
    var more := ReportThenLowReading(cfg, st);
    ConfigIsFixed(cfg, steps);
    ReportArrives(cfg, steps, st);
    ExecAppend(cfg, steps + more[..3], more[3]);
    assert steps + more == steps + more[..3] + [more[3]];
  }

  /** The initial prompt is sent at most once in every run exactly when the driver never reports "pending". */
  lemma PromptSentOnceIff(cfg: Config, reportable: Status -> bool)
    ensures (forall steps | AllReport(steps, reportable) :: Summary(Exec(cfg, steps).h.log).sends.prompts <= 1)
            <==> !reportable(Pending)
  {
    if !reportable(Pending) {
      forall steps | AllReport(steps, reportable) ensures Summary(Exec(cfg, steps).h.log).sends.prompts <= 1 {
        PromptedOnceInRun(cfg, steps, reportable);
        TotalsAreExact(cfg, steps);
      }
    } else {
      var once := [] + ReportThenLowReading(cfg, Pending);
      var twice := once + ReportThenLowReading(cfg, Pending);
      ReportReopensSending(cfg, [], Pending);
      ReportReopensSending(cfg, once, Pending);
      TotalsAreExact(cfg, twice);
      assert AllReport(twice, reportable);
    }
  }

  /**
   Nudges never outnumber pauses, and a paused session names its tier, exactly when the driver never reports
   "paused".
   */
  lemma NudgesPerPauseIff(cfg: Config, reportable: Status -> bool)
    ensures (forall steps | AllReport(steps, reportable) ::
               var w := Exec(cfg, steps); NudgedPerPause(w.s, Summary(w.h.log)))
            <==> !reportable(Paused)
  {
    if !reportable(Paused) {
      forall steps | AllReport(steps, reportable)
        ensures var w := Exec(cfg, steps); NudgedPerPause(w.s, Summary(w.h.log))
      {
        NudgedPerPauseInRun(cfg, steps, reportable);
        TotalsAreExact(cfg, steps);
      }
    } else {
      var once := [] + ReportThenLowReading(cfg, Paused);
      ReportReopensSending(cfg, [], Paused);
      TotalsAreExact(cfg, once);
      assert AllReport(once, reportable);
    }
  }

  /** The agent's own lifecycle states are not driver states, so drivers that keep to theirs break neither law. */
  lemma DriverStatesKeepBothLaws(cfg: Config, steps: seq<Step>)
    requires AllReport(steps, IsDriverState)
    ensures var w := Exec(cfg, steps);
            Summary(w.h.log).sends.prompts <= 1 && NudgedPerPause(w.s, Summary(w.h.log))
  {
    PromptSentOnceIff(cfg, IsDriverState);
    NudgesPerPauseIff(cfg, IsDriverState);
  }
}

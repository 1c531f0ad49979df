/** The daemon's job entries and watcher backlog as an object; its loops are tied to JobDispatcherSpec. */
module JobDispatcher {
  import opened Basics
  import opened JobDispatcherSpec
  import JobPausingLaws
  import JobRetryLaws

  class Daemon {
    var jobs: seq<Job>
    var triggers: seq<(nat, Job)>

    function View(): World
      reads this
    {
      World(jobs, triggers)
    }

    method WriteJobEntry(j: nat, job: Job)
      requires j < |jobs|
      modifies this
      ensures View() == Write(old(View()), j, job)
    {
      jobs := jobs[j := job];
      triggers := triggers + [(j, job)];
    }

    method PauseJob(j: nat, job: Job) returns (sent: seq<Notice>)
      requires j < |jobs|
      modifies this
      ensures View() == Write(old(View()), j, job.(status := Paused)) && sent == [StopMessage(j), PausedEvent(j)]
    {
      sent := [StopMessage(j), PausedEvent(j)];
      WriteJobEntry(j, job.(status := Paused));
    }

    /** `order` is the sorted list of running jobs. */
    method PauseExceeded(q: Quota, order: seq<nat>) returns (notices: seq<Notice>)
      requires RunningOrder(jobs, order)
      modifies this
      ensures notices == NoticesOf(ToPause(old(jobs), q, order))
      ensures View() == PauseAll(old(View()), ToPause(old(jobs), q, order))
    {
      ghost var p := ToPause(jobs, q, order);
      JobPausingLaws.ToPauseIsAPrefix(jobs, q, order);
      var i := 0;
      notices := [];
      while i < |order|
        invariant 0 <= i <= |p| && |jobs| == |old(jobs)|
        invariant View() == PauseAll(old(View()), p[..i]) && notices == NoticesOf(p[..i])
        invariant forall k | i <= k < |order| :: jobs[order[k]] == old(jobs)[order[k]]
      {
        var job := jobs[order[i]];
        if !Over(q, job) {
          break;
        }
        TakeNext(p, i);
        var sent := PauseJob(order[i], job);
        notices := notices + sent;
        i := i + 1;
      }
      assert p[..i] == p;
    }

    /** `order` is the sorted list of paused jobs. */
    method RequeuePaused(order: seq<nat>, now: int)
      requires Lists(jobs, Paused, order)
      modifies this
      ensures View() == RecoverAll(old(View()), order, now)
    {
      for i := 0 to |order|
        invariant |jobs| == |old(jobs)| && View() == RecoverAll(old(View()), order[..i], now)
      {
        TakeNext(order, i);
        var job := jobs[order[i]];
        if job.resumeAt.Some? && job.resumeAt.value > now {
          continue;
        }
        WriteJobEntry(order[i], job.(status := Queued, resumeAt := None));
      }
      assert order[..|order|] == order;
    }

    /** The prompt goes out before the entry is marked running, whether or not that write succeeds. */
    method DispatchQueuedJob(j: nat, changed: Job, o: Outcome) returns (prompted: bool)
      requires j < |jobs|
      modifies this
      ensures prompted <==> o.Started?
      ensures View() == Dispatch(old(View()), j, changed, o)
    {
      prompted := false;
      if o.MarkFails? { return; }
      var job := changed.(status := Starting);
      WriteJobEntry(j, job);
      match o
      case NeverIdle(written) =>
        job := job.(retryCount := job.retryCount + 1, status := Queued, session := None);
        if job.retryCount >= MAX_RETRIES {
          job := job.(status := Failed);
        }
        if written { WriteJobEntry(j, job); }
      case Started(id, written) =>
        prompted := true;
        job := job.(status := Running, session := Some(id));
        if written { WriteJobEntry(j, job); }
      case _ =>
    }

    method ProcessDispatch(q: Quota, changed: Option<(nat, Job)>, a: Answers) returns (notices: seq<Notice>)
      requires Valid(jobs, a) && (changed.Some? ==> changed.value.0 < |jobs|)
      modifies this
      ensures View() == JobDispatcherSpec.ProcessDispatch(old(View()), q, changed, a)
      ensures notices == PassNotices(old(jobs), q, a)
    {
      notices := [];
      if q.hasData {
        var anyExceeded := false;
        for i := 0 to |a.running|
          invariant anyExceeded == exists k | 0 <= k < i :: Over(q, jobs[a.running[k]])
          invariant View() == old(View())
        {
          if q.u5 >= jobs[a.running[i]].threshold {
            anyExceeded := true;
            break;
          }
        }
        if anyExceeded {
          notices := PauseExceeded(q, a.running);
        } else {
          RequeuePaused(a.paused, a.now);
        }
      }
      if changed.Some? && changed.value.1.status == Queued {
        if !q.hasData || q.u5 < changed.value.1.threshold {
          var _ := DispatchQueuedJob(changed.value.0, changed.value.1, a.outcome);
        }
      }
    }

    /** One pass over the entries, before the watcher replays them; `gone` says which sessions are missing. */
    method StartupRecovery(gone: seq<bool>, now: int)
      requires |gone| == |jobs|
      modifies `jobs
      ensures jobs == Startup(old(jobs), gone, now).jobs
    {
      for j := 0 to |jobs|
        invariant |jobs| == |old(jobs)|
        invariant forall k | 0 <= k < |jobs| ::
            jobs[k] == if k < j then Recovered(old(jobs)[k], gone[k], now) else old(jobs)[k]
      {
        var job := jobs[j];
        match job.status
        case Starting =>
          jobs := jobs[j := job.(status := Queued, session := None)];
        case Running =>
          if job.session.Some? && gone[j] {
            jobs := jobs[j := job.(status := Queued, session := None)];
          }
        case Paused =>
          if job.resumeAt.Some? && job.resumeAt.value < now {
            jobs := jobs[j := job.(status := Queued, resumeAt := None)];
          }
        case _ =>
      }
    }

    /** One pass of the dispatcher loop: a quota update, or the next watcher entry. */
    method Perform(r: JobRetryLaws.Round) returns (notices: seq<Notice>)
      requires JobRetryLaws.Enabled(View(), r)
      modifies this
      ensures View() == JobRetryLaws.Perform(old(View()), r)
      ensures notices == PassNotices(old(jobs), r.q, r.a)
    {
      match r
      case QuotaUpdate(q, a) => notices := ProcessDispatch(q, None, a);
      case NextTrigger(q, a) =>
        var changed := triggers[0];
        triggers := triggers[1..];
        notices := ProcessDispatch(q, Some(changed), a);
    }

    /** The dispatcher loop through any rounds, and what the laws say of the entries it leaves. */
    method Run(rounds: seq<JobRetryLaws.Round>)
      requires JobRetryLaws.Runs(View(), rounds)
      modifies this
      ensures View() == JobRetryLaws.Exec(old(View()), rounds)
      ensures old(JobRetryLaws.Inv(View())) ==>
                && JobRetryLaws.Progress(old(jobs), jobs)
                && forall j | 0 <= j < |jobs| ::
                     && jobs[j].retryCount <= MAX_RETRIES
                     && (jobs[j].retryCount == MAX_RETRIES ==> jobs[j].status == Failed)
    {
      for i := 0 to |rounds|
        invariant JobRetryLaws.Runs(View(), rounds[i..])
        invariant JobRetryLaws.Exec(View(), rounds[i..]) == JobRetryLaws.Exec(old(View()), rounds)
      {
        assert rounds[i..][1..] == rounds[i + 1..];
        var _ := Perform(rounds[i]);
      }
      if old(JobRetryLaws.Inv(View())) { JobRetryLaws.RetriesAreBounded(old(View()), rounds); }
    }
  }
}

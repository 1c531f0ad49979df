/** What one round of the dispatcher does to each job, to the backlog, and to the sessions it pauses. */
module JobOutcomeLaws {
  import opened Basics
  import opened JobDispatcherSpec
  import opened JobRetryLaws
  import opened JobPausingLaws

  /** The quota is known and has reached the job's threshold. */
  predicate AtThreshold(q: Quota, job: Job) { q.hasData && q.u5 >= job.threshold }

  /** It and every job before it in the sorted order are at or over threshold. */
  predicate OverUpTo(jobs: seq<Job>, q: Quota, order: seq<nat>, i: nat)
    requires Indices(order, |jobs|)
  {
    i < |order| && forall k | 0 <= k <= i :: AtThreshold(q, jobs[order[k]])
  }

  /** The job is in the prefix of jobs at or over threshold. */
  ghost predicate MustPause(jobs: seq<Job>, q: Quota, order: seq<nat>, j: nat)
    requires Indices(order, |jobs|)
  {
    exists i: nat :: OverUpTo(jobs, q, order, i) && order[i] == j
  }

  ghost predicate NoneAtThreshold(jobs: seq<Job>, q: Quota) {
    forall j | 0 <= j < |jobs| && jobs[j].status.Running? :: !AtThreshold(q, jobs[j])
  }

  predicate TimeHasCome(job: Job, now: int) { job.resumeAt.None? || job.resumeAt.value <= now }

  function AsPaused(job: Job): Job {
    Job(job.priority, job.threshold, Paused, job.retryCount, job.resumeAt, job.session)
  }

  function AsRequeued(job: Job): Job {
    Job(job.priority, job.threshold, Queued, job.retryCount, None, job.session)
  }

  lemma {:induction false} PausedEach(w: World, list: seq<nat>, j: nat)
    requires Indices(list, |w.jobs|) && Distinct(list) && j < |w.jobs|
    ensures PauseAll(w, list).jobs[j] == if j in list then AsPaused(w.jobs[j]) else w.jobs[j]
  {
    if list != [] {
      var init, last := list[..|list| - 1], list[|list| - 1];
      PausedEach(w, init, j);
      assert list == init + [last];
    }
  }

  lemma {:induction false} PausedWrites(w: World, list: seq<nat>)
    requires Indices(list, |w.jobs|) && Distinct(list)
    ensures PauseAll(w, list).triggers ==
            w.triggers + seq(|list|, i requires 0 <= i < |list| => (list[i], AsPaused(w.jobs[list[i]])))
  {
    if list != [] {
      var init, last := list[..|list| - 1], list[|list| - 1];
      PausedWrites(w, init);
      PausedEach(w, init, last);
    }
  }

  lemma {:induction false} RequeuedEach(w: World, list: seq<nat>, now: int, j: nat)
    requires Indices(list, |w.jobs|) && Distinct(list) && j < |w.jobs|
    ensures RecoverAll(w, list, now).jobs[j] ==
            if j in list && TimeHasCome(w.jobs[j], now) then AsRequeued(w.jobs[j]) else w.jobs[j]
  {
    if list != [] {
      var init, last := list[..|list| - 1], list[|list| - 1];
      RequeuedEach(w, init, now, j);
      if j != last { RequeuedEach(w, init, now, last); }
      assert list == init + [last];
    }
  }

  /** The jobs of the list whose time has come, in the list's order. */
  function Due(jobs: seq<Job>, list: seq<nat>, now: int): (due: seq<nat>)
    requires Indices(list, |jobs|)
    ensures Indices(due, |jobs|)
  {
    if list == [] then []
    else
      var j := list[|list| - 1];
      Due(jobs, list[..|list| - 1], now) + if TimeHasCome(jobs[j], now) then [j] else []
  }

  lemma {:induction false} RequeuedWrites(w: World, list: seq<nat>, now: int)
    requires Indices(list, |w.jobs|) && Distinct(list)
    ensures var due := Due(w.jobs, list, now);
            RecoverAll(w, list, now).triggers ==
            w.triggers + seq(|due|, i requires 0 <= i < |due| => (due[i], AsRequeued(w.jobs[due[i]])))
  {
    if list != [] {
      var init, last := list[..|list| - 1], list[|list| - 1];
      RequeuedWrites(w, init, now);
      RequeuedEach(w, init, now, last);
    }
  }

  lemma InPrefixIff(jobs: seq<Job>, q: Quota, order: seq<nat>, j: nat)
    requires Indices(order, |jobs|) && Distinct(order) && q.hasData
    ensures j in ToPause(jobs, q, order) <==> MustPause(jobs, q, order, j)
  {
    ToPauseIsAPrefix(jobs, q, order);
    var p := ToPause(jobs, q, order);
    if j in p {
      var i :| 0 <= i < |p| && p[i] == j;
      assert forall k | 0 <= k < |p| :: AtThreshold(q, jobs[order[k]]);
      assert OverUpTo(jobs, q, order, i) && order[i] == j;
    }
    if i: nat :| OverUpTo(jobs, q, order, i) && order[i] == j {
      assert |p| < |order| ==> !AtThreshold(q, jobs[order[|p|]]);
      assert p[i] == j;
    }
  }

  /** Whether the pass pauses or requeues. */
  lemma AnyOverIff(jobs: seq<Job>, q: Quota, order: seq<nat>)
    requires Lists(jobs, Running, order)
    ensures AnyOver(jobs, q, order) <==> !NoneAtThreshold(jobs, q)
  {
    if j :| 0 <= j < |jobs| && jobs[j].status.Running? && AtThreshold(q, jobs[j]) {
      assert j in order;
      var i :| 0 <= i < |order| && order[i] == j;
      assert Over(q, jobs[order[i]]);
    }
    if i :| 0 <= i < |order| && Over(q, jobs[order[i]]) {
      assert order[i] in order;
    }
  }

  /**
   What a pass makes of a job: a running one is paused exactly when it and all jobs before it in the sorted
   order are at or over threshold; when none is, exactly the paused jobs whose time has come are requeued.
   */
  ghost function AfterPass(jobs: seq<Job>, q: Quota, a: Answers, j: nat): Job
    requires j < |jobs| && Indices(a.running, |jobs|)
  {
    if q.hasData && jobs[j].status.Running? && MustPause(jobs, q, a.running, j) then AsPaused(jobs[j])
    else if q.hasData && NoneAtThreshold(jobs, q) && jobs[j].status.Paused? && TimeHasCome(jobs[j], a.now)
    then AsRequeued(jobs[j])
    else jobs[j]
  }

  /** A quota update does just that to every job. */
  lemma QuotaUpdateOutcome(w: World, q: Quota, a: Answers, j: nat)
    requires Valid(w.jobs, a) && j < |w.jobs|
    ensures var w' := Perform(w, QuotaUpdate(q, a)); |w'.jobs| == |w.jobs| && w'.jobs[j] == AfterPass(w.jobs, q, a, j)
  {
    if q.hasData {
      AnyOverIff(w.jobs, q, a.running);
      InPrefixIff(w.jobs, q, a.running, j);
      if AnyOver(w.jobs, q, a.running) {
        ToPauseIsRunningAndOver(w.jobs, q, a.running);
        PausedEach(w, ToPause(w.jobs, q, a.running), j);
        if MustPause(w.jobs, q, a.running, j) { assert j in a.running; }
      } else {
        RequeuedEach(w, a.paused, a.now, j);
      }
    }
  }

  /** Its writes come back as triggers, in the sorted orders. */
  lemma QuotaUpdateWrites(w: World, q: Quota, a: Answers) returns (list: seq<nat>)
    requires Valid(w.jobs, a)
    ensures Indices(list, |w.jobs|)
    ensures var w' := Perform(w, QuotaUpdate(q, a));
            && |w'.jobs| == |w.jobs|
            && w'.triggers == w.triggers + seq(|list|, i requires 0 <= i < |list| => (list[i], w'.jobs[list[i]]))
    ensures if !q.hasData then list == []
            else if NoneAtThreshold(w.jobs, q) then list == Due(w.jobs, a.paused, a.now)
            else list <= a.running && forall j: nat :: j in list <==> MustPause(w.jobs, q, a.running, j)
    ensures forall i, k | 0 <= i < k < |list| ::
              if NoneAtThreshold(w.jobs, q) then w.jobs[list[i]].priority >= w.jobs[list[k]].priority
              else w.jobs[list[i]].priority <= w.jobs[list[k]].priority
  {
    list := [];
    if q.hasData {
      AnyOverIff(w.jobs, q, a.running);
      if AnyOver(w.jobs, q, a.running) {
        list := ToPause(w.jobs, q, a.running);
        ToPauseIsRunningAndOver(w.jobs, q, a.running);
        PausedWrites(w, list);
        forall i | 0 <= i < |list| ensures PauseAll(w, list).jobs[list[i]] == AsPaused(w.jobs[list[i]]) {
          PausedEach(w, list, list[i]);
        }
        forall j: nat
          ensures j in list <==> MustPause(w.jobs, q, a.running, j)
        {
          InPrefixIff(w.jobs, q, a.running, j);
        }
      } else {
        list := Due(w.jobs, a.paused, a.now);
        RequeuedWrites(w, a.paused, a.now);
        DueIsDue(w.jobs, a.paused, a.now);
        DueDescends(w.jobs, a.paused, a.now);
        forall i | 0 <= i < |list| ensures RecoverAll(w, a.paused, a.now).jobs[list[i]] == AsRequeued(w.jobs[list[i]]) {
          assert list[i] in list;
          RequeuedEach(w, a.paused, a.now, list[i]);
        }
      }
    }
  }

  lemma {:induction false} DueDescends(jobs: seq<Job>, list: seq<nat>, now: int)
    requires Indices(list, |jobs|) && Descending(jobs, list)
    ensures Descending(jobs, Due(jobs, list, now))
  {
    if list != [] {
      var init, last := list[..|list| - 1], list[|list| - 1];
      assert forall i | 0 <= i < |init| :: jobs[init[i]].priority >= jobs[last].priority;
      DueDescends(jobs, init, now);
      DueIsDue(jobs, init, now);
      var due := Due(jobs, init, now);
      forall i | 0 <= i < |due| ensures jobs[due[i]].priority >= jobs[last].priority { assert due[i] in due; }
    }
  }

  lemma {:induction false} DueIsDue(jobs: seq<Job>, list: seq<nat>, now: int)
    requires Indices(list, |jobs|)
    ensures forall j: nat :: j in Due(jobs, list, now) <==> j in list && TimeHasCome(jobs[j], now)
  {
    if list != [] {
      DueIsDue(jobs, list[..|list| - 1], now);
      assert list == list[..|list| - 1] + [list[|list| - 1]];
    }
  }

  /** Each job that the pass pauses, and no other, is sent one stop message and then one lifecycle event. */
  lemma NoticesAreExact(jobs: seq<Job>, q: Quota, a: Answers, j: nat, i: nat)
    requires Valid(jobs, a)
    ensures var n, pauses := PassNotices(jobs, q, a), q.hasData && MustPause(jobs, q, a.running, j);
            multiset(n)[StopMessage(j)] == Once(pauses) && multiset(n)[PausedEvent(j)] == Once(pauses)
                && StopsBefore(n, i)
  {
    ToPauseIsRunningAndOver(jobs, q, a.running);
    NoticesEach(ToPause(jobs, q, a.running), j);
    NoticesInOrder(ToPause(jobs, q, a.running), i);
    if q.hasData { InPrefixIff(jobs, q, a.running, j); }
  }

  function Once(b: bool): nat { if b then 1 else 0 }

  lemma {:induction false} NoticesEach(list: seq<nat>, j: nat)
    requires Distinct(list)
    ensures multiset(NoticesOf(list))[StopMessage(j)] == Once(j in list)
    ensures multiset(NoticesOf(list))[PausedEvent(j)] == Once(j in list)
  {
    if list != [] {
      var init, last := list[..|list| - 1], list[|list| - 1];
      NoticesEach(init, j);
      assert list == init + [last];
    }
  }

  predicate StopsBefore(n: seq<Notice>, i: nat) {
    i < |n| && n[i].PausedEvent? ==> i > 0 && n[i - 1] == StopMessage(n[i].job)
  }

  lemma {:induction false} NoticesInOrder(list: seq<nat>, i: nat)
    ensures StopsBefore(NoticesOf(list), i)
  {
    if list != [] {
      var init, last := list[..|list| - 1], list[|list| - 1];
      NoticesInOrder(init, i);
      assert NoticesOf(list) == NoticesOf(init) + [StopMessage(last), PausedEvent(last)];
    }
  }

  // ---------------------------------------------------------------- dispatches

  function AsStarting(job: Job): Job {
    Job(job.priority, job.threshold, Starting, job.retryCount, job.resumeAt, job.session)
  }

  /** The entries a dispatch writes for a job, in order. */
  function Written(job: Job, o: Outcome): seq<Job> {
    match o
    case MarkFails => []
    case CreateFails => [AsStarting(job)]
    case NeverIdle(false) => [AsStarting(job)]
    case NeverIdle(true) =>
      var next := if job.retryCount < 2 then Queued else Failed;
      [AsStarting(job), Job(job.priority, job.threshold, next, job.retryCount + 1, job.resumeAt, None)]
    case Started(_, false) => [AsStarting(job)]
    case Started(id, true) =>
      [AsStarting(job), Job(job.priority, job.threshold, Running, job.retryCount, job.resumeAt, Some(id))]
  }

  /** The trigger is a queued job that the quota lets start. */
  predicate MayStart(q: Quota, job: Job) { job.status.Queued? && !AtThreshold(q, job) }

  /**
   A trigger acts as a quota update on the backlog without it; then, if its job is queued and below threshold,
   the job is started: its writes are the last triggers, and the last of them is its entry.
   */
  lemma TriggerOutcome(w: World, q: Quota, a: Answers)
    requires Enabled(w, NextTrigger(q, a))
    ensures var (j, job) := w.triggers[0];
            var base, w' := Perform(w.(triggers := w.triggers[1..]), QuotaUpdate(q, a)), Perform(w, NextTrigger(q, a));
            var out := if MayStart(q, job) then Written(job, a.outcome) else [];
            && |base.jobs| == |w.jobs|
            && w'.triggers == base.triggers + seq(|out|, i requires 0 <= i < |out| => (j, out[i]))
            && w'.jobs == if out == [] then base.jobs else base.jobs[j := out[|out| - 1]]
  {
    var (j, job) := w.triggers[0];
    var base, w' := Perform(w.(triggers := w.triggers[1..]), QuotaUpdate(q, a)), Perform(w, NextTrigger(q, a));
    var out := if MayStart(q, job) then Written(job, a.outcome) else [];
    assert w'.triggers == base.triggers + seq(|out|, i requires 0 <= i < |out| => (j, out[i]));
  }

  /** A trigger does to every job but its own what a quota update does. */
  lemma OtherJobsAtATrigger(w: World, q: Quota, a: Answers, j: nat)
    requires Enabled(w, NextTrigger(q, a)) && j < |w.jobs| && j != w.triggers[0].0
    ensures var w' := Perform(w, NextTrigger(q, a)); |w'.jobs| == |w.jobs| && w'.jobs[j] == AfterPass(w.jobs, q, a, j)
  {
    TriggerOutcome(w, q, a);
    QuotaUpdateOutcome(w.(triggers := w.triggers[1..]), q, a, j);
  }

  // ---------------------------------------------------------------- startup

  /** What a daemon makes of an entry it finds at its start; every entry is then replayed. */
  lemma StartupOutcome(jobs: seq<Job>, gone: seq<bool>, now: int, j: nat)
    requires |gone| == |jobs| && j < |jobs|
    ensures var w, job := Startup(jobs, gone, now), jobs[j];
            && |w.jobs| == |jobs| && |w.triggers| == |jobs| && w.triggers[j] == (j, w.jobs[j])
            && w.jobs[j] ==
               if job.status.Starting? || (job.status.Running? && job.session.Some? && gone[j])
               then Job(job.priority, job.threshold, Queued, job.retryCount, job.resumeAt, None)
               else if job.status.Paused? && job.resumeAt.Some? && job.resumeAt.value < now
               then Job(job.priority, job.threshold, Queued, job.retryCount, None, job.session)
               else job
  {}
}

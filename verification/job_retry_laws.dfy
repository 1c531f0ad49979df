/**
 Laws of the dispatcher's feedback loop: bounded retries, final failure, and quiescence. They speak
 of runs in which only the dispatcher writes job entries.
 */
module JobRetryLaws {
  import opened Basics
  import opened JobDispatcherSpec
  import JobPausingLaws

  // ---------------------------------------------------------------- the invariant

  predicate JobOk(job: Job) { job.retryCount <= MAX_RETRIES && (job.retryCount == MAX_RETRIES ==> job.status.Failed?) }

  /** A backlog entry that would be dispatched. */
  predicate Live(t: (nat, Job)) { t.1.status.Queued? }

  /** No dispatchable entry for `j` waits. */
  ghost predicate Quiet(triggers: seq<(nat, Job)>, j: nat) {
    forall i | 0 <= i < |triggers| && triggers[i].0 == j :: !Live(triggers[i])
  }

  /** Dispatchable entries are up to date and single. */
  ghost predicate Current(w: World) {
    && (forall i | 0 <= i < |w.triggers| ::
          && w.triggers[i].0 < |w.jobs|
          && (Live(w.triggers[i]) ==> w.jobs[w.triggers[i].0] == w.triggers[i].1))
    && (forall i, k | 0 <= i < k < |w.triggers| && Live(w.triggers[i]) && Live(w.triggers[k]) ::
        w.triggers[i].0 != w.triggers[k].0)
  }

  ghost predicate Inv(w: World) {
    && (forall j | 0 <= j < |w.jobs| :: JobOk(w.jobs[j]))
    && Current(w)
  }

  /** Retry counts only grow, and a failed job is never touched again. */
  ghost predicate Progress(a: seq<Job>, b: seq<Job>) {
    |a| == |b| && forall j | 0 <= j < |a| ::
      && a[j].retryCount <= b[j].retryCount
      && (a[j].status.Failed? ==> b[j] == a[j])
      && a[j].threshold == b[j].threshold && a[j].priority == b[j].priority
  }

  // ---------------------------------------------------------------- work left under a fixed quota

  /** The most KV writes the dispatcher can still make for a job while the quota stays as it is. */
  function Work(job: Job, q: Quota): nat {
    var retries := if job.retryCount < MAX_RETRIES && !Over(q, job) then 2 * (MAX_RETRIES - job.retryCount) else 0;
    match job.status
    case Queued => retries
    case Running => if Over(q, job) then 2 else 0
    case Paused => if q.hasData then 1 + retries else 0
    case _ => 0
  }

  function TotalWork(jobs: seq<Job>, q: Quota): nat {
    if jobs == [] then 0 else TotalWork(jobs[..|jobs| - 1], q) + Work(jobs[|jobs| - 1], q)
  }

  lemma {:induction false} TotalWorkUpdate(jobs: seq<Job>, q: Quota, j: nat, job: Job)
    requires j < |jobs|
    ensures TotalWork(jobs[j := job], q) == TotalWork(jobs, q) - Work(jobs[j], q) + Work(job, q)
  {
    var n := |jobs| - 1;
    if j == n {
      assert jobs[j := job][..n] == jobs[..n];
    } else {
      assert jobs[j := job][..n] == jobs[..n][j := job];
      TotalWorkUpdate(jobs[..n], q, j, job);
    }
  }

  lemma {:induction false} TotalWorkBound(jobs: seq<Job>, q: Quota)
    ensures TotalWork(jobs, q) <= 7 * |jobs|
  {
    if jobs != [] { TotalWorkBound(jobs[..|jobs| - 1], q); }
  }

  /** Backlog plus work left. */
  function Measure(w: World, q: Quota): nat { |w.triggers| + TotalWork(w.jobs, q) }

  /** `b` follows from `a` by writes that cost no more than they add. */
  ghost predicate Advances(a: World, b: World, q: Quota) {
    Inv(b) && Progress(a.jobs, b.jobs) && Measure(b, q) <= Measure(a, q)
  }

  lemma WriteAdvances(w: World, q: Quota, j: nat, job: Job)
    requires Inv(w) && j < |w.jobs| && Quiet(w.triggers, j) && JobOk(job)
    requires !w.jobs[j].status.Failed? && w.jobs[j].retryCount <= job.retryCount
    requires job.threshold == w.jobs[j].threshold && job.priority == w.jobs[j].priority
    requires Work(job, q) < Work(w.jobs[j], q)
    ensures Advances(w, Write(w, j, job), q)
  {
    TotalWorkUpdate(w.jobs, q, j, job);
  }

  lemma NotQueuedIsQuiet(w: World, j: nat)
    requires Current(w) && j < |w.jobs| && !w.jobs[j].status.Queued?
    ensures Quiet(w.triggers, j)
  {}

  lemma AdvancesTwice(a: World, b: World, c: World, q: Quota)
    requires Advances(a, b, q) && Advances(b, c, q)
    ensures Advances(a, c, q)
  {}

  // ---------------------------------------------------------------- the passes

  lemma {:induction false} PauseAllAdvances(w: World, q: Quota, list: seq<nat>)
    requires Inv(w) && Indices(list, |w.jobs|) && Distinct(list)
    requires forall i | 0 <= i < |list| :: w.jobs[list[i]].status.Running? && Over(q, w.jobs[list[i]])
    ensures var w' := PauseAll(w, list);
            && Advances(w, w', q)
            && (forall j | 0 <= j < |w.jobs| && j !in list :: w'.jobs[j] == w.jobs[j])
  {
    if list != [] {
      var init, j := list[..|list| - 1], list[|list| - 1];
      PauseAllAdvances(w, q, init);
      var u := PauseAll(w, init);
      assert j !in init && u.jobs[j] == w.jobs[j];
      NotQueuedIsQuiet(u, j);
      WriteAdvances(u, q, j, u.jobs[j].(status := Paused));
      AdvancesTwice(w, u, PauseAll(w, list), q);
      assert forall k | 0 <= k < |w.jobs| && k !in list :: k !in init;
    }
  }

  lemma {:induction false} RecoverAllAdvances(w: World, q: Quota, list: seq<nat>, now: int)
    requires Inv(w) && q.hasData && Indices(list, |w.jobs|) && Distinct(list)
    requires forall i | 0 <= i < |list| :: w.jobs[list[i]].status.Paused?
    ensures var w' := RecoverAll(w, list, now);
            && Advances(w, w', q)
            && (forall j | 0 <= j < |w.jobs| && j !in list :: w'.jobs[j] == w.jobs[j])
            && (forall j | 0 <= j < |w.jobs| && Quiet(w.triggers, j) && j !in list :: Quiet(w'.triggers, j))
  {
    if list != [] {
      var init, j := list[..|list| - 1], list[|list| - 1];
      RecoverAllAdvances(w, q, init, now);
      var u := RecoverAll(w, init, now);
      assert j !in init && u.jobs[j] == w.jobs[j];
      NotQueuedIsQuiet(u, j);
      if MayResume(u.jobs[j], now) {
        WriteAdvances(u, q, j, u.jobs[j].(status := Queued, resumeAt := None));
        AdvancesTwice(w, u, RecoverAll(w, list, now), q);
      }
      assert forall k | 0 <= k < |w.jobs| && k !in list :: k !in init && k != j;
    }
  }

  lemma {:induction false} PauseAllStaysQuiet(w: World, list: seq<nat>, j: nat)
    requires Indices(list, |w.jobs|) && Quiet(w.triggers, j)
    ensures Quiet(PauseAll(w, list).triggers, j)
  {
    if list != [] { PauseAllStaysQuiet(w, list[..|list| - 1], j); }
  }

  lemma ToPauseIsRunningAndOver(jobs: seq<Job>, q: Quota, order: seq<nat>)
    requires Indices(order, |jobs|) && Lists(jobs, Running, order)
    ensures var p := ToPause(jobs, q, order);
            Distinct(p) && Indices(p, |jobs|) && forall i | 0 <= i < |p| ::
                jobs[p[i]].status.Running? && Over(q, jobs[p[i]])
  {
    JobPausingLaws.ToPauseIsAPrefix(jobs, q, order);
    var p := ToPause(jobs, q, order);
    assert forall i | 0 <= i < |p| :: p[i] == order[i] && order[i] in order;
  }

  /** The quota pass advances, and leaves a queued job and its absence from the backlog alone. */
  lemma QuotaPassAdvances(w: World, q: Quota, a: Answers)
    requires Inv(w) && Valid(w.jobs, a)
    ensures var w' := QuotaPass(w, q, a);
            && Advances(w, w', q)
            && (forall j | 0 <= j < |w.jobs| && w.jobs[j].status.Queued? ::
                w'.jobs[j] == w.jobs[j] && (Quiet(w.triggers, j) ==> Quiet(w'.triggers, j)))
  {
    if q.hasData {
      if AnyOver(w.jobs, q, a.running) {
        var p := ToPause(w.jobs, q, a.running);
        ToPauseIsRunningAndOver(w.jobs, q, a.running);
        PauseAllAdvances(w, q, p);
        forall j: nat | j < |w.jobs| && Quiet(w.triggers, j)
          ensures Quiet(PauseAll(w, p).triggers, j)
        {
          PauseAllStaysQuiet(w, p, j);
        }
        assert forall j | j in p :: w.jobs[j].status.Running?;
      } else {
        assert forall i | 0 <= i < |a.paused| :: a.paused[i] in a.paused;
        RecoverAllAdvances(w, q, a.paused, a.now);
      }
    }
  }

  lemma DispatchAdvances(w: World, q: Quota, j: nat, o: Outcome)
    requires Inv(w) && j < |w.jobs| && w.jobs[j].status.Queued? && Quiet(w.triggers, j) && !Over(q, w.jobs[j])
    ensures Advances(w, Dispatch(w, j, w.jobs[j], o), q)
  {
    if !o.MarkFails? {
      var job := w.jobs[j];
      var started := job.(status := Starting);
      var w1 := Write(w, j, started);
      WriteAdvances(w, q, j, started);
      assert Quiet(w1.triggers, j);
      TotalWorkUpdate(w.jobs, q, j, started);
      var w2 := Dispatch(w, j, job, o);
      if w2 != w1 {
        var last := w2.jobs[j];
        TotalWorkUpdate(w1.jobs, q, j, last);
        assert w2 == Write(w1, j, last) && JobOk(last);
        assert Work(last, q) + 2 <= Work(job, q);
        assert Inv(w2);
      }
    }
  }

  // ---------------------------------------------------------------- the loop

  /** The dispatcher takes the next watcher entry. */
  function TakeTrigger(w: World, q: Quota, a: Answers): World
    requires w.triggers != [] && w.triggers[0].0 < |w.jobs| && Indices(a.running, |w.jobs|)
        && Indices(a.paused, |w.jobs|)
  {
    ProcessDispatch(w.(triggers := w.triggers[1..]), q, Some(w.triggers[0]), a)
  }

  lemma TakeTriggerAdvances(w: World, q: Quota, a: Answers)
    requires Inv(w) && w.triggers != [] && Valid(w.jobs, a)
    ensures var w' := TakeTrigger(w, q, a);
            Inv(w') && Progress(w.jobs, w'.jobs) && Measure(w', q) < Measure(w, q)
  {
    var (j, snap) := w.triggers[0];
    var w0 := w.(triggers := w.triggers[1..]);
    assert Inv(w0);
    QuotaPassAdvances(w0, q, a);
    if Live(w.triggers[0]) {
      assert Quiet(w0.triggers, j);
      if !Over(q, snap) {
        var w1 := QuotaPass(w0, q, a);
        DispatchAdvances(w1, q, j, a.outcome);
        AdvancesTwice(w0, w1, TakeTrigger(w, q, a), q);
      }
    }
  }

  /** A run of triggers taken one after another with the quota unchanged and no other writer. */
  ghost predicate SelfTriggered(w: World, q: Quota, answers: seq<Answers>)
    decreases |answers|
  {
    answers == [] ||
    (w.triggers != [] && w.triggers[0].0 < |w.jobs| && Valid(w.jobs, answers[0])
        && SelfTriggered(TakeTrigger(w, q, answers[0]), q, answers[1..]))
  }

  ghost function After(w: World, q: Quota, answers: seq<Answers>): World
    requires SelfTriggered(w, q, answers)
    decreases |answers|
  {
    if answers == [] then w else After(TakeTrigger(w, q, answers[0]), q, answers[1..])
  }

  /** A self-triggered run ends: it takes no more triggers than the backlog plus seven for each job. */
  lemma {:induction false} FeedbackQuiesces(w: World, q: Quota, answers: seq<Answers>)
    requires Inv(w) && SelfTriggered(w, q, answers)
    ensures |answers| <= Measure(w, q) <= |w.triggers| + 7 * |w.jobs|
    decreases |answers|
  {
    TotalWorkBound(w.jobs, q);
    if answers != [] {
      TakeTriggerAdvances(w, q, answers[0]);
      FeedbackQuiesces(TakeTrigger(w, q, answers[0]), q, answers[1..]);
    }
  }

  // ---------------------------------------------------------------- any quota, any length

  /** One round of the dispatcher: a quota update, or the next watcher entry. */
  datatype Round = QuotaUpdate(q: Quota, a: Answers) | NextTrigger(q: Quota, a: Answers)

  ghost predicate Enabled(w: World, r: Round) {
    && Valid(w.jobs, r.a)
    && (r.NextTrigger? ==> w.triggers != [] && w.triggers[0].0 < |w.jobs|)
  }

  ghost function Perform(w: World, r: Round): World
    requires Enabled(w, r)
  {
    if r.NextTrigger? then TakeTrigger(w, r.q, r.a) else ProcessDispatch(w, r.q, None, r.a)
  }

  ghost predicate Runs(w: World, rounds: seq<Round>)
    decreases |rounds|
  {
    rounds == [] || (Enabled(w, rounds[0]) && Runs(Perform(w, rounds[0]), rounds[1..]))
  }

  ghost function Exec(w: World, rounds: seq<Round>): World
    requires Runs(w, rounds)
    decreases |rounds|
  {
    if rounds == [] then w else Exec(Perform(w, rounds[0]), rounds[1..])
  }

  /**
   Through any rounds the dispatcher keeps retry counts within three, never lowers one, and never touches a
   failed job.
   */
  lemma {:induction false} RetriesAreBounded(w: World, rounds: seq<Round>)
    requires Inv(w) && Runs(w, rounds)
    ensures var w' := Exec(w, rounds);
            && Inv(w') && Progress(w.jobs, w'.jobs)
            && forall j | 0 <= j < |w'.jobs| ::
                 w'.jobs[j].retryCount <= 3 && (w'.jobs[j].retryCount == 3 ==> w'.jobs[j].status.Failed?)
    decreases |rounds|
  {
    if rounds != [] {
      var r := rounds[0];
      if r.NextTrigger? { TakeTriggerAdvances(w, r.q, r.a); } else { QuotaPassAdvances(w, r.q, r.a); }
      RetriesAreBounded(Perform(w, r), rounds[1..]);
    } else {
      assert forall j | 0 <= j < |w.jobs| :: JobOk(w.jobs[j]);
    }
  }

  // ---------------------------------------------------------------- jobs that are never started

  /** The job is queued, but no entry that would dispatch it waits. */
  ghost predicate Forgotten(w: World, j: nat) { j < |w.jobs| && w.jobs[j].status.Queued? && Quiet(w.triggers, j) }

  lemma DispatchLeavesOthers(w: World, k: nat, job: Job, o: Outcome, j: nat)
    requires k < |w.jobs| && Forgotten(w, j) && j != k
    ensures var w' := Dispatch(w, k, job, o); Forgotten(w', j) && w'.jobs[j] == w.jobs[j]
  {}

  lemma ForgottenRound(w: World, r: Round, j: nat)
    requires Inv(w) && Enabled(w, r) && Forgotten(w, j)
    ensures var w' := Perform(w, r); Inv(w') && Forgotten(w', j) && w'.jobs[j] == w.jobs[j]
  {
    if r.NextTrigger? {
      var (k, changed) := w.triggers[0];
      var w0 := w.(triggers := w.triggers[1..]);
      assert Inv(w0) && Forgotten(w0, j);
      QuotaPassAdvances(w0, r.q, r.a);
      TakeTriggerAdvances(w, r.q, r.a);
      if changed.status.Queued? {
        assert Live(w.triggers[0]) && k != j;
        DispatchLeavesOthers(QuotaPass(w0, r.q, r.a), k, changed, r.a.outcome, j);
      }
    } else {
      QuotaPassAdvances(w, r.q, r.a);
    }
  }

  /** Such a job stays as it is through any rounds, whatever the quota later allows: quota updates dispatch nothing. */
  lemma {:induction false} ForgottenForGood(w: World, rounds: seq<Round>, j: nat)
    requires Inv(w) && Runs(w, rounds) && Forgotten(w, j)
    ensures var w' := Exec(w, rounds); Forgotten(w', j) && w'.jobs[j] == w.jobs[j]
    decreases |rounds|
  {
    if rounds != [] {
      ForgottenRound(w, rounds[0], j);
      ForgottenForGood(Perform(w, rounds[0]), rounds[1..], j);
    }
  }

  /** A queued job whose entry is taken while the quota is over its threshold is never started by the dispatcher. */
  lemma RefusedJobIsNeverStarted(w: World, q: Quota, a: Answers, rounds: seq<Round>)
    requires Inv(w) && Enabled(w, NextTrigger(q, a)) && Live(w.triggers[0]) && Over(q, w.triggers[0].1)
    requires Runs(TakeTrigger(w, q, a), rounds)
    ensures var (j, job) := w.triggers[0];
            var w' := Exec(TakeTrigger(w, q, a), rounds);
            j < |w'.jobs| && w'.jobs[j] == job && job.status.Queued?
  {
    var (j, job) := w.triggers[0];
    var w0 := w.(triggers := w.triggers[1..]);
    assert Inv(w0) && Forgotten(w0, j);
    QuotaPassAdvances(w0, q, a);
    TakeTriggerAdvances(w, q, a);
    assert TakeTrigger(w, q, a) == QuotaPass(w0, q, a);
    ForgottenForGood(TakeTrigger(w, q, a), rounds, j);
  }

  /** The start from any entries within the retry bound establishes the invariant. */
  lemma StartupIsSound(jobs: seq<Job>, gone: seq<bool>, now: int)
    requires |gone| == |jobs| && forall j | 0 <= j < |jobs| :: JobOk(jobs[j])
    ensures Inv(Startup(jobs, gone, now))
  {}
}
